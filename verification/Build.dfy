// ReplaceAll's build: one snapshot made of nothing but the records given.
module Build {
  import opened Decimal
  import opened Packing
  import opened Table
  import opened Dictionary
  import Engine
  import opened Oracle
  import opened Upsert
  import Compaction
  import opened Insertion
  import Merge

  // ---- What the dump says ----

  datatype Item = Item(tuple: Tuple, entry: Entry)

  // The records a build uses, in order; None when one of them is bad.
  function Accepted(sc: Schema, recs: seq<Record>, cutoff: int): Option<seq<Item>> {
    if |recs| == 0 then Some([])
    else
      var n := |recs| - 1;
      match Accepted(sc, recs[..n], cutoff)
      case None => None
      case Some(items) =>
        match Read(sc, recs[n], cutoff)
        case Bad => None
        case Skip => Some(items)
        case Use(t, e) => Some(items + [Item(t, e)])
  }

  // Item i is a newest one of its tuple.
  ghost predicate NewestOf(items: seq<Item>, t: Tuple, i: int) {
    && 0 <= i < |items| && items[i].tuple == t
    && forall k :: 0 <= k < |items| && items[k].tuple == t ==> items[k].entry.updated <= items[i].entry.updated
  }

  // One entry per tuple, taken from a newest item; a tuple whose kept newest item has
  // expired is absent, older items notwithstanding.
  ghost predicate Built(items: seq<Item>, now: int, m: Contents) {
    && (forall t :: t in m ==>
         exists i :: NewestOf(items, t, i) && m[t] == items[i].entry && !Expired(m[t].expire, now))
    && (forall k :: 0 <= k < |items| && items[k].tuple !in m ==> NewestExpired(items, now, items[k].tuple))
  }

  ghost predicate NewestExpired(items: seq<Item>, now: int, t: Tuple) {
    exists i :: NewestOf(items, t, i) && Expired(items[i].entry.expire, now)
  }

  // No two newest items of a tuple differ while one of them is unexpired.
  ghost predicate NoLiveTies(items: seq<Item>, now: int) {
    forall i, k :: LiveTie(items, now, i, k) ==> items[i].entry == items[k].entry
  }

  // Items i and k are both newest of one tuple, and i has not expired.
  ghost predicate LiveTie(items: seq<Item>, now: int, i: int, k: int) {
    && 0 <= i < |items| && 0 <= k < |items|
    && NewestOf(items, items[i].tuple, i) && NewestOf(items, items[i].tuple, k) && !Expired(items[i].entry.expire, now)
  }

  // m keeps a newest item of every tuple.
  ghost predicate FoldsTo(items: seq<Item>, m: Contents, cutoff: int) {
    && (forall t :: t in m ==> exists i :: NewestOf(items, t, i) && m[t] == items[i].entry)
    && (forall k :: 0 <= k < |items| ==> items[k].tuple in m && items[k].entry.updated >= cutoff)
  }

  // The reference fold keeps a newest item of every tuple.
  lemma {:induction false} FoldIsNewest(sc: Schema, recs: seq<Record>, cutoff: int)
    ensures ApplyAll(sc, map[], recs, cutoff, false).None? <==> Accepted(sc, recs, cutoff).None?
    ensures Accepted(sc, recs, cutoff).Some? ==>
              FoldsTo(Accepted(sc, recs, cutoff).value, ApplyAll(sc, map[], recs, cutoff, false).value, cutoff)
  {
    if |recs| == 0 {
    } else {
      var n := |recs| - 1;
      FoldIsNewest(sc, recs[..n], cutoff);
      if Accepted(sc, recs, cutoff).Some? && Read(sc, recs[n], cutoff).Use? {
        var Use(t, e) := Read(sc, recs[n], cutoff);
        FoldOne(ApplyAll(sc, map[], recs[..n], cutoff, false).value, Accepted(sc, recs[..n], cutoff).value, t, e,
          cutoff);
      }
    }
  }

  lemma FoldOne(m: Contents, items: seq<Item>, t: Tuple, e: Entry, cutoff: int)
    requires FoldsTo(items, m, cutoff) && e.updated >= cutoff
    ensures FoldsTo(items + [Item(t, e)], Oracle.Upsert(m, t, e, false), cutoff)
  {
    var (m', items') := (Oracle.Upsert(m, t, e, false), items + [Item(t, e)]);
    forall u | u in m' ensures exists i :: NewestOf(items', u, i) && m'[u] == items'[i].entry {
      if u != t || (t in m && m[t].updated > e.updated) {
        var i :| NewestOf(items, u, i) && m[u] == items[i].entry;
        OldStays(items, t, e, u, i);
      } else {
        if t in m {
          var i :| NewestOf(items, t, i) && m[t] == items[i].entry;
          NewWins(items, t, e, i);
        } else {
          assert forall k :: 0 <= k < |items| ==> items[k].tuple in m;
          NewAlone(items, t, e);
        }
      }
    }
  }

  // A newest item stays newest beside a new item of another tuple, or an older one.
  lemma OldStays(items: seq<Item>, t: Tuple, e: Entry, u: Tuple, i: int)
    requires NewestOf(items, u, i) && (u != t || items[i].entry.updated > e.updated)
    ensures NewestOf(items + [Item(t, e)], u, i) && (items + [Item(t, e)])[i] == items[i]
  {
  }

  lemma NewWins(items: seq<Item>, t: Tuple, e: Entry, i: int)
    requires NewestOf(items, t, i) && items[i].entry.updated <= e.updated
    ensures NewestOf(items + [Item(t, e)], t, |items|)
  {
  }

  lemma NewAlone(items: seq<Item>, t: Tuple, e: Entry)
    requires forall k :: 0 <= k < |items| ==> items[k].tuple != t
    ensures NewestOf(items + [Item(t, e)], t, |items|)
  {
  }

  // A build denotes the reference table after replace and reclaim, whichever newest items
  // it keeps, exactly when no tie is live.
  lemma BuiltIsOracle(sc: Schema, recs: seq<Record>, cutoff: int, now: int)
    requires Accepted(sc, recs, cutoff).Some?
    ensures ApplyAll(sc, map[], recs, cutoff, false).Some?
    ensures (forall m :: Built(Accepted(sc, recs, cutoff).value, now, m) ==>
              m == Retain(ApplyAll(sc, map[], recs, cutoff, false).value, cutoff, now))
            <==> NoLiveTies(Accepted(sc, recs, cutoff).value, now)
  {
    hide NoLiveTies, Built, FoldsTo, Accepted, ApplyAll, Retain;
    FoldIsNewest(sc, recs, cutoff);
    var (items, ref) := (Accepted(sc, recs, cutoff).value, ApplyAll(sc, map[], recs, cutoff, false).value);
    if NoLiveTies(items, now) {
      forall m | Built(items, now, m) ensures m == Retain(ref, cutoff, now) {
        NewestDecides(items, ref, cutoff, now, m);
      }
    } else {
      var m := OtherBuild(items, ref, cutoff, now);
    }
  }

  lemma NewestDecides(items: seq<Item>, ref: Contents, cutoff: int, now: int, m: Contents)
    requires NoLiveTies(items, now) && Built(items, now, m) && FoldsTo(items, ref, cutoff)
    ensures m == Retain(ref, cutoff, now)
  {
    hide NoLiveTies, Built, FoldsTo, NewestOf;
    forall t | t in m ensures t in ref && ref[t] == m[t] && m[t].updated >= cutoff && !Expired(m[t].expire, now) {
      BuiltIsRef(items, ref, cutoff, now, m, t);
    }
    forall t | t in ref && Oracle.Kept(ref[t], cutoff, now) ensures t in m {
      RefIsBuilt(items, ref, cutoff, now, m, t);
    }
  }

  lemma BuiltIsRef(items: seq<Item>, ref: Contents, cutoff: int, now: int, m: Contents, t: Tuple)
    requires NoLiveTies(items, now) && Built(items, now, m) && FoldsTo(items, ref, cutoff) && t in m
    ensures t in ref && ref[t] == m[t] && m[t].updated >= cutoff && !Expired(m[t].expire, now)
  {
    var i :| NewestOf(items, t, i) && m[t] == items[i].entry && !Expired(m[t].expire, now);
    assert items[i].tuple in ref;
    var k :| NewestOf(items, t, k) && ref[t] == items[k].entry;
    assert LiveTie(items, now, i, k);
  }

  lemma RefIsBuilt(items: seq<Item>, ref: Contents, cutoff: int, now: int, m: Contents, t: Tuple)
    requires NoLiveTies(items, now) && Built(items, now, m) && FoldsTo(items, ref, cutoff)
    requires t in ref && Oracle.Kept(ref[t], cutoff, now)
    ensures t in m
  {
    hide NoLiveTies, Built, FoldsTo, NewestOf;
    var k := RefNewest(items, ref, cutoff, t);
    if t !in m {
      var i := AbsentExpired(items, now, m, t, k);
      NotLive(items, now, t, k, i);
    }
  }

  lemma RefNewest(items: seq<Item>, ref: Contents, cutoff: int, t: Tuple) returns (k: nat)
    requires FoldsTo(items, ref, cutoff) && t in ref
    ensures k < |items| && items[k].tuple == t && NewestOf(items, t, k) && ref[t] == items[k].entry
  {
    var i :| NewestOf(items, t, i) && ref[t] == items[i].entry;
    k := i;
  }

  lemma AbsentExpired(items: seq<Item>, now: int, m: Contents, t: Tuple, k: nat) returns (i: nat)
    requires Built(items, now, m) && k < |items| && items[k].tuple == t && t !in m
    ensures i < |items| && NewestOf(items, t, i) && Expired(items[i].entry.expire, now)
  {
    hide NewestOf, NewestExpired;
    assert NewestExpired(items, now, items[k].tuple);
    i := PickExpired(items, now, t);
  }

  lemma PickExpired(items: seq<Item>, now: int, t: Tuple) returns (i: nat)
    requires NewestExpired(items, now, t)
    ensures i < |items| && NewestOf(items, t, i) && Expired(items[i].entry.expire, now)
  {
    var j :| NewestOf(items, t, j) && Expired(items[j].entry.expire, now);
    i := j;
  }

  lemma NotLive(items: seq<Item>, now: int, t: Tuple, k: int, i: int)
    requires NoLiveTies(items, now) && NewestOf(items, t, k) && NewestOf(items, t, i)
    ensures !Expired(items[k].entry.expire, now) ==> items[k].entry == items[i].entry
  {
    assert !Expired(items[k].entry.expire, now) ==> LiveTie(items, now, k, i);
  }

  // The reference table is always among the builds.
  lemma RetainIsBuilt(items: seq<Item>, ref: Contents, cutoff: int, now: int)
    requires FoldsTo(items, ref, cutoff)
    ensures Built(items, now, Retain(ref, cutoff, now))
  {
    var m := Retain(ref, cutoff, now);
    forall k | 0 <= k < |items| && items[k].tuple !in m
      ensures NewestExpired(items, now, items[k].tuple)
    {
      var i :| NewestOf(items, items[k].tuple, i) && ref[items[k].tuple] == items[i].entry;
      assert items[i].entry.updated >= cutoff;
    }
  }

  // A live tie admits another one.
  lemma OtherBuild(items: seq<Item>, ref: Contents, cutoff: int, now: int) returns (m: Contents)
    requires FoldsTo(items, ref, cutoff) && !NoLiveTies(items, now)
    ensures Built(items, now, m) && m != Retain(ref, cutoff, now)
  {
    hide Built, FoldsTo, NewestOf, Retain;
    var r := Retain(ref, cutoff, now);
    RetainIsBuilt(items, ref, cutoff, now);
    var i, k :| LiveTie(items, now, i, k) && items[i].entry != items[k].entry;
    var t := items[i].tuple;
    if !(t in r && r[t] == items[i].entry) {
      m := r[t := items[i].entry];
      SwapBuilt(items, now, r, t, i);
    } else if !Expired(items[k].entry.expire, now) {
      m := r[t := items[k].entry];
      SwapBuilt(items, now, r, t, k);
    } else {
      m := r - {t};
      DropBuilt(items, now, r, t, k);
    }
  }

  lemma SwapBuilt(items: seq<Item>, now: int, m: Contents, t: Tuple, i: int)
    requires Built(items, now, m) && NewestOf(items, t, i) && !Expired(items[i].entry.expire, now)
    ensures Built(items, now, m[t := items[i].entry])
  {
    hide Expired;
    var m' := m[t := items[i].entry];
    forall u | u in m'
      ensures exists j :: NewestOf(items, u, j) && m'[u] == items[j].entry && !Expired(m'[u].expire, now)
    {
      if u != t {
        var j :| NewestOf(items, u, j) && m[u] == items[j].entry && !Expired(m[u].expire, now);
        assert m'[u] == items[j].entry;
      }
    }
  }

  lemma DropBuilt(items: seq<Item>, now: int, m: Contents, t: Tuple, k: int)
    requires Built(items, now, m) && NewestOf(items, t, k) && Expired(items[k].entry.expire, now)
    ensures Built(items, now, m - {t})
  {
    hide Expired;
    var m' := m - {t};
    forall u | u in m'
      ensures exists j :: NewestOf(items, u, j) && m'[u] == items[j].entry && !Expired(m'[u].expire, now)
    {
      var j :| NewestOf(items, u, j) && m[u] == items[j].entry && !Expired(m[u].expire, now);
      assert m'[u] == items[j].entry;
    }
  }

  // ---- A dump with a live tie ----

  const TIED_DUMP := [Record([[97]], [1], 5, None), Record([[97]], [2], 5, None)]

  // Two records of one tuple and one stamp: at every clock the build may answer with the
  // one or the other.
  lemma TieIsOpen(now: int)
    ensures Accepted(ONE_LABEL, TIED_DUMP, 0).Some? && !NoLiveTies(Accepted(ONE_LABEL, TIED_DUMP, 0).value, now)
    ensures Built(Accepted(ONE_LABEL, TIED_DUMP, 0).value, now, map[[Str([97])] := Entry([1], 5, 0)])
    ensures Built(Accepted(ONE_LABEL, TIED_DUMP, 0).value, now, map[[Str([97])] := Entry([2], 5, 0)])
  {
    var (t, a, b) := ([Str([97])], Entry([1], 5, 0), Entry([2], 5, 0));
    TiedItems();
    var items := [Item(t, a), Item(t, b)];
    assert NewestOf(items, t, 0) && NewestOf(items, t, 1);
    assert LiveTie(items, now, 0, 1) && items[0].entry != items[1].entry;
  }

  lemma TiedItems()
    ensures Accepted(ONE_LABEL, TIED_DUMP, 0)
            == Some([Item([Str([97])], Entry([1], 5, 0)), Item([Str([97])], Entry([2], 5, 0))])
  {
    var (sc, recs) := (ONE_LABEL, TIED_DUMP);
    TiedReads(1);
    TiedReads(2);
    assert recs[..1] == [recs[0]];
    var one := Item([Str([97])], Entry([1], 5, 0));
    assert Accepted(sc, recs[..0], 0) == Some([]);
    assert recs[..1][..0] == recs[..0];
    assert Accepted(sc, recs[..1], 0) == Some([] + [one]);
    assert [] + [one] + [Item([Str([97])], Entry([2], 5, 0))] == [one, Item([Str([97])], Entry([2], 5, 0))];
  }

  lemma TiedReads(hits: int)
    ensures Read(ONE_LABEL, Record([[97]], [hits], 5, None), 0) == Use([Str([97])], Entry([hits], 5, 0))
  {
    var dims: seq<Text> := [[97]];
    var sc := ONE_LABEL;
    assert TupleOf(sc, dims, 0) == Some([]);
    assert TupleOf(sc, dims, 1) == Some([] + [Str([97])]);
  }

  // ---- Sorting rows by key, tuple, newest first ----

  // The comparison slices.SortFunc is given.
  function CmpIds(a: seq<nat>, b: seq<nat>): int
    requires |a| == |b|
  {
    if |a| == 0 then 0
    else if a[0] < b[0] then -1
    else if a[0] > b[0] then 1
    else CmpIds(a[1..], b[1..])
  }

  function Cmp(ka: nat, a: Row, kb: nat, b: Row): int
    requires |a.ids| == |b.ids|
  {
    if ka != kb then (if ka < kb then -1 else 1)
    else if CmpIds(a.ids, b.ids) != 0 then CmpIds(a.ids, b.ids)
    else if a.updated > b.updated then -1
    else if a.updated < b.updated then 1
    else 0
  }

  lemma {:induction false} CmpIdsLaws(a: seq<nat>, b: seq<nat>, c: seq<nat>)
    requires |a| == |b| == |c|
    ensures CmpIds(a, b) == 0 <==> a == b
    ensures CmpIds(b, a) == -CmpIds(a, b)
    ensures CmpIds(a, b) <= 0 && CmpIds(b, c) <= 0 ==> CmpIds(a, c) <= 0
  {
    if |a| == 0 {
    } else {
      CmpIdsLaws(a[1..], b[1..], c[1..]);
      assert a == [a[0]] + a[1..] && b == [b[0]] + b[1..];
    }
  }

  lemma CmpLaws(ka: nat, a: Row, kb: nat, b: Row, kc: nat, c: Row)
    requires |a.ids| == |b.ids| == |c.ids|
    ensures Cmp(kb, b, ka, a) == -Cmp(ka, a, kb, b)
    ensures Cmp(ka, a, kb, b) <= 0 && Cmp(kb, b, kc, c) <= 0 ==> Cmp(ka, a, kc, c) <= 0
  {
    CmpIdsLaws(a.ids, b.ids, c.ids);
    CmpIdsLaws(b.ids, c.ids, a.ids);
    CmpIdsLaws(a.ids, c.ids, b.ids);
  }

  function CmpAt(keys: seq<nat>, rows: seq<Row>, a: nat, b: nat): int
    requires a < |rows| == |keys| && b < |rows| && |rows[a].ids| == |rows[b].ids|
  {
    Cmp(keys[a], rows[a], keys[b], rows[b])
  }

  ghost predicate SameArity(rows: seq<Row>, nd: nat) {
    forall r :: 0 <= r < |rows| ==> |rows[r].ids| == nd
  }

  ghost predicate InOrder(keys: seq<nat>, rows: seq<Row>, nd: nat, perm: seq<nat>)
    requires |keys| == |rows| && SameArity(rows, nd)
  {
    && (forall i :: 0 <= i < |perm| ==> perm[i] < |rows|)
    && (forall i, k :: 0 <= i < k < |perm| ==> CmpAt(keys, rows, perm[i], perm[k]) <= 0)
  }

  // Any sort by Cmp: the order of records that compare equal is left open.
  method SortRows(keys: seq<nat>, rows: seq<Row>, ghost nd: nat) returns (perm: seq<nat>)
    requires |keys| == |rows| && SameArity(rows, nd)
    ensures Permutes(perm, |rows|) && InOrder(keys, rows, nd, perm)
  {
    hide InsertAt, CmpAt;
    perm := [];
    for i := 0 to |rows|
      invariant Permutes(perm, i) && InOrder(keys, rows, nd, perm)
    {
      var p := |perm|;
      while p > 0 && CmpAt(keys, rows, perm[p - 1], i) > 0
        invariant 0 <= p <= |perm|
        invariant forall k :: p <= k < |perm| ==> CmpAt(keys, rows, perm[k], i) > 0
      {
        p := p - 1;
      }
      InsertPermutes(perm, i, p);
      InsertInOrder(keys, rows, nd, perm, i, p);
      perm := InsertAt<nat>(perm, p, i);
    }
  }

  lemma CmpAtLaws(keys: seq<nat>, rows: seq<Row>, nd: nat, a: nat, b: nat, c: nat)
    requires |keys| == |rows| && SameArity(rows, nd) && a < |rows| && b < |rows| && c < |rows|
    ensures CmpAt(keys, rows, b, a) == -CmpAt(keys, rows, a, b)
    ensures CmpAt(keys, rows, a, b) <= 0 && CmpAt(keys, rows, b, c) <= 0 ==> CmpAt(keys, rows, a, c) <= 0
  {
    CmpLaws(keys[a], rows[a], keys[b], rows[b], keys[c], rows[c]);
  }

  lemma InsertInOrder(keys: seq<nat>, rows: seq<Row>, nd: nat, perm: seq<nat>, i: nat, p: nat)
    requires |keys| == |rows| && SameArity(rows, nd) && InOrder(keys, rows, nd, perm) && p <= |perm| && i < |rows|
    requires p > 0 ==> CmpAt(keys, rows, perm[p - 1], i) <= 0
    requires forall k :: p <= k < |perm| ==> CmpAt(keys, rows, perm[k], i) > 0
    ensures InOrder(keys, rows, nd, InsertAt(perm, p, i))
  {
    hide InsertAt, CmpAt;
    var q := InsertAt(perm, p, i);
    forall a | 0 <= a < p ensures CmpAt(keys, rows, perm[a], i) <= 0 {
      if a < p - 1 {
        CmpAtLaws(keys, rows, nd, perm[a], perm[p - 1], i);
      }
    }
    forall a | p <= a < |perm| ensures CmpAt(keys, rows, i, perm[a]) <= 0 {
      CmpAtLaws(keys, rows, nd, perm[a], i, i);
    }
  }

  // ---- Deduplication: the first of each run of equal tuples ----

  ghost predicate Head(rows: seq<Row>, perm: seq<nat>, i: nat)
    requires i < |perm| && forall k :: 0 <= k < |perm| ==> perm[k] < |rows|
  {
    i == 0 || rows[perm[i - 1]].ids != rows[perm[i]].ids
  }

  ghost predicate KeysOfIds(shifts: seq<nat>, keys: seq<nat>, rows: seq<Row>) {
    && |keys| == |rows|
    && forall r :: 0 <= r < |rows| ==> |shifts| <= |rows[r].ids| && keys[r] == KeyOf(shifts, rows[r].ids)
  }

  // Equal tuples are contiguous.
  lemma Contiguous(shifts: seq<nat>, keys: seq<nat>, rows: seq<Row>, nd: nat, perm: seq<nat>, i: nat, k: nat, l: nat)
    requires KeysOfIds(shifts, keys, rows) && SameArity(rows, nd) && InOrder(keys, rows, nd, perm)
    requires i <= k <= l < |perm| && rows[perm[i]].ids == rows[perm[l]].ids
    ensures rows[perm[k]].ids == rows[perm[i]].ids
  {
    if i < k < l {
      var (a, b) := (rows[perm[i]].ids, rows[perm[k]].ids);
      assert CmpAt(keys, rows, perm[i], perm[k]) <= 0 && CmpAt(keys, rows, perm[k], perm[l]) <= 0;
      CmpIdsLaws(a, b, a);
      CmpIdsLaws(b, a, b);
    }
  }

  lemma {:induction false} HeadOf(rows: seq<Row>, perm: seq<nat>, i: nat) returns (h: nat)
    requires i < |perm| && forall k :: 0 <= k < |perm| ==> perm[k] < |rows|
    ensures h <= i && Head(rows, perm, h) && rows[perm[h]].ids == rows[perm[i]].ids
  {
    if Head(rows, perm, i) {
      h := i;
    } else {
      h := HeadOf(rows, perm, i - 1);
    }
  }

  // A head precedes every other row of its tuple, so it is a newest one.
  lemma HeadFirst(shifts: seq<nat>, keys: seq<nat>, rows: seq<Row>, nd: nat, perm: seq<nat>, h: nat, i: nat)
    requires KeysOfIds(shifts, keys, rows) && SameArity(rows, nd) && InOrder(keys, rows, nd, perm)
    requires h < |perm| && i < |perm| && Head(rows, perm, h) && rows[perm[i]].ids == rows[perm[h]].ids
    ensures h <= i && rows[perm[i]].updated <= rows[perm[h]].updated
  {
    if i < h {
      Contiguous(shifts, keys, rows, nd, perm, i, h - 1, h);
    } else if h < i {
      assert CmpAt(keys, rows, perm[h], perm[i]) <= 0;
      CmpIdsLaws(rows[perm[h]].ids, rows[perm[i]].ids, rows[perm[h]].ids);
    }
  }

  // The positions kept: heads that have not expired, in order.
  ghost predicate KeptHeads(rows: seq<Row>, perm: seq<nat>, now: int, n: nat, pos: seq<nat>)
    requires n <= |perm| && forall k :: 0 <= k < |perm| ==> perm[k] < |rows|
  {
    && (forall i :: 0 <= i < |pos| ==>
         pos[i] < n && Head(rows, perm, pos[i]) && !Expired(rows[perm[pos[i]]].expire, now))
    && (forall i, k :: 0 <= i < k < |pos| ==> pos[i] < pos[k])
    && (forall i :: 0 <= i < n && Head(rows, perm, i) && !Expired(rows[perm[i]].expire, now) ==> i in pos)
  }

  lemma KeptNone(rows: seq<Row>, perm: seq<nat>, now: int)
    requires forall k :: 0 <= k < |perm| ==> perm[k] < |rows|
    ensures KeptHeads(rows, perm, now, 0, [])
  {
  }

  lemma KeptSkip(rows: seq<Row>, perm: seq<nat>, now: int, n: nat, pos: seq<nat>)
    requires n < |perm| && forall k :: 0 <= k < |perm| ==> perm[k] < |rows|
    requires KeptHeads(rows, perm, now, n, pos) && !(Head(rows, perm, n) && !Expired(rows[perm[n]].expire, now))
    ensures KeptHeads(rows, perm, now, n + 1, pos)
  {
  }

  lemma KeptTake(rows: seq<Row>, perm: seq<nat>, now: int, n: nat, pos: seq<nat>)
    requires n < |perm| && forall k :: 0 <= k < |perm| ==> perm[k] < |rows|
    requires KeptHeads(rows, perm, now, n, pos) && Head(rows, perm, n) && !Expired(rows[perm[n]].expire, now)
    ensures KeptHeads(rows, perm, now, n + 1, pos + [n])
  {
    hide Head, Expired;
  }

  method Dedupe(keys: seq<nat>, rows: seq<Row>, perm: seq<nat>, now: int)
    returns (outRows: seq<Row>, outKeys: seq<nat>, ghost pos: seq<nat>)
    requires |keys| == |rows| && forall k :: 0 <= k < |perm| ==> perm[k] < |rows|
    ensures KeptHeads(rows, perm, now, |perm|, pos) && |outRows| == |outKeys| == |pos|
    ensures forall i :: 0 <= i < |pos| ==>
              pos[i] < |perm| && outRows[i] == rows[perm[pos[i]]] && outKeys[i] == keys[perm[pos[i]]]
  {
    hide KeptHeads;
    outRows, outKeys, pos := [], [], [];
    KeptNone(rows, perm, now);
    for i := 0 to |perm|
      invariant KeptHeads(rows, perm, now, i, pos) && |outRows| == |outKeys| == |pos|
      invariant forall k :: 0 <= k < |pos| ==>
                  pos[k] < |perm| && outRows[k] == rows[perm[pos[k]]] && outKeys[k] == keys[perm[pos[k]]]
    {
      var p := perm[i];
      if i > 0 && rows[perm[i - 1]].ids == rows[p].ids {
        KeptSkip(rows, perm, now, i, pos);
        continue; // not the head of its tuple
      }
      if Expired(rows[p].expire, now) {
        KeptSkip(rows, perm, now, i, pos);
        continue; // newest already expired: it hides the older ones too
      }
      KeptTake(rows, perm, now, i, pos);
      outRows, outKeys, pos := outRows + [rows[p]], outKeys + [keys[p]], pos + [i];
    }
  }

  // ---- The snapshot ----

  // The interned rows carry the items, one for one.
  ghost predicate Carries(sc: Schema, ds: Dicts, rows: seq<Row>, items: seq<Item>) {
    && DictsOK(sc, ds) && RowsIn(sc, ds, rows) && |rows| == |items|
    && forall i :: 0 <= i < |rows| ==> Decode(ds, rows[i].ids) == items[i].tuple && EntryOf(rows[i]) == items[i].entry
  }

  lemma SameTuple(sc: Schema, ds: Dicts, rows: seq<Row>, items: seq<Item>, i: nat, k: nat)
    requires Carries(sc, ds, rows, items) && i < |rows| && k < |rows|
    ensures rows[i].ids == rows[k].ids <==> items[i].tuple == items[k].tuple
  {
    DecodeInjective(sc, ds, rows[i].ids, rows[k].ids);
  }

  // What holds of sorted interned rows.
  ghost predicate Sorted(sc: Schema, ds: Dicts, shifts: seq<nat>, keys: seq<nat>, rows: seq<Row>, items: seq<Item>,
          perm: seq<nat>) {
    && Carries(sc, ds, rows, items)
    && SameArity(rows, |sc.dims|)
    && KeysOfIds(shifts, keys, rows)
    && Permutes(perm, |rows|)
    && InOrder(keys, rows, |sc.dims|, perm)
  }

  lemma HeadIsNewest(sc: Schema, ds: Dicts, shifts: seq<nat>, keys: seq<nat>, rows: seq<Row>, items: seq<Item>,
          perm: seq<nat>, h: nat)
    requires Sorted(sc, ds, shifts, keys, rows, items, perm) && h < |perm| && Head(rows, perm, h)
    ensures NewestOf(items, items[perm[h]].tuple, perm[h])
  {
    hide Carries, KeysOfIds, SameArity, InOrder, DictsOK;
    CarriesLen(sc, ds, rows, items);
    forall k | 0 <= k < |items| && items[k].tuple == items[perm[h]].tuple
      ensures items[k].entry.updated <= items[perm[h]].entry.updated
    {
      SameTuple(sc, ds, rows, items, k, perm[h]);
      assert k in perm;
      var i :| 0 <= i < |perm| && perm[i] == k;
      HeadFirst(shifts, keys, rows, |sc.dims|, perm, h, i);
      CarriesAt(sc, ds, rows, items, k);
      CarriesAt(sc, ds, rows, items, perm[h]);
    }
  }

  lemma CarriesLen(sc: Schema, ds: Dicts, rows: seq<Row>, items: seq<Item>)
    requires Carries(sc, ds, rows, items)
    ensures |rows| == |items| && DictsOK(sc, ds) && RowsIn(sc, ds, rows)
  {
  }

  lemma CarriesAt(sc: Schema, ds: Dicts, rows: seq<Row>, items: seq<Item>, i: nat)
    requires Carries(sc, ds, rows, items) && i < |rows|
    ensures Decode(ds, rows[i].ids) == items[i].tuple && EntryOf(rows[i]) == items[i].entry
  {
  }

  // outRows are the kept heads.
  ghost predicate Picked(keys: seq<nat>, rows: seq<Row>, perm: seq<nat>, now: int, pos: seq<nat>,
          outRows: seq<Row>, outKeys: seq<nat>)
    requires |keys| == |rows| && forall k :: 0 <= k < |perm| ==> perm[k] < |rows|
  {
    && KeptHeads(rows, perm, now, |perm|, pos)
    && |outRows| == |outKeys| == |pos|
    && forall i :: 0 <= i < |pos| ==>
         pos[i] < |perm| && outRows[i] == rows[perm[pos[i]]] && outKeys[i] == keys[perm[pos[i]]]
  }

  lemma PickedUnique(sc: Schema, ds: Dicts, shifts: seq<nat>, keys: seq<nat>, rows: seq<Row>, items: seq<Item>,
          perm: seq<nat>,
                     now: int, pos: seq<nat>, outRows: seq<Row>, outKeys: seq<nat>)
    requires Sorted(sc, ds, shifts, keys, rows, items, perm) && |keys| == |rows|
    requires forall k :: 0 <= k < |perm| ==> perm[k] < |rows|
    requires Picked(keys, rows, perm, now, pos, outRows, outKeys)
    ensures UniqueIds(outRows) && Ascending(outKeys) && RowsIn(sc, ds, outRows)
    ensures forall i :: 0 <= i < |outRows| ==>
              |shifts| <= |outRows[i].ids| && outKeys[i] == KeyOf(shifts, outRows[i].ids)
  {
    hide Sorted, DictsOK, RowsIn, Head, Expired;
    forall i, k | 0 <= i < k < |outRows| ensures outRows[i].ids != outRows[k].ids && outKeys[i] <= outKeys[k] {
      HeadsApart(sc, ds, shifts, keys, rows, items, perm, pos[i], pos[k]);
    }
    SortedKeys(sc, ds, shifts, keys, rows, items, perm);
    PickedIn(sc, ds, rows, outRows, perm, pos);
  }

  lemma SortedKeys(sc: Schema, ds: Dicts, shifts: seq<nat>, keys: seq<nat>, rows: seq<Row>, items: seq<Item>,
          perm: seq<nat>)
    requires Sorted(sc, ds, shifts, keys, rows, items, perm)
    ensures RowsIn(sc, ds, rows) && KeysOfIds(shifts, keys, rows)
  {
  }

  lemma PickedIn(sc: Schema, ds: Dicts, rows: seq<Row>, outRows: seq<Row>, perm: seq<nat>, pos: seq<nat>)
    requires RowsIn(sc, ds, rows) && |outRows| == |pos|
    requires forall i :: 0 <= i < |pos| ==> pos[i] < |perm| && perm[pos[i]] < |rows| && outRows[i] == rows[perm[pos[i]]]
    ensures RowsIn(sc, ds, outRows)
  {
  }

  // Two heads: different tuples, keys in order.
  lemma HeadsApart(sc: Schema, ds: Dicts, shifts: seq<nat>, keys: seq<nat>, rows: seq<Row>, items: seq<Item>,
          perm: seq<nat>, h: nat, g: nat)
    requires Sorted(sc, ds, shifts, keys, rows, items, perm) && |keys| == |rows|
    requires forall k :: 0 <= k < |perm| ==> perm[k] < |rows|
    requires h < g < |perm| && Head(rows, perm, g)
    ensures rows[perm[h]].ids != rows[perm[g]].ids && keys[perm[h]] <= keys[perm[g]]
  {
    hide Carries, Permutes, CmpAt;
    if rows[perm[h]].ids == rows[perm[g]].ids {
      HeadFirst(shifts, keys, rows, |sc.dims|, perm, g, h);
    }
    CmpKeys(keys, rows, perm[h], perm[g]);
  }

  lemma CmpKeys(keys: seq<nat>, rows: seq<Row>, a: nat, b: nat)
    requires |keys| == |rows| && a < |rows| && b < |rows| && |rows[a].ids| == |rows[b].ids|
               && CmpAt(keys, rows, a, b) <= 0
    ensures keys[a] <= keys[b]
  {
  }

  lemma PickedBuilt(sc: Schema, ds: Dicts, shifts: seq<nat>, keys: seq<nat>, rows: seq<Row>, items: seq<Item>,
          perm: seq<nat>, now: int, pos: seq<nat>, outRows: seq<Row>, outKeys: seq<nat>)
    requires Sorted(sc, ds, shifts, keys, rows, items, perm) && |keys| == |rows|
    requires forall k :: 0 <= k < |perm| ==> perm[k] < |rows|
    requires Picked(keys, rows, perm, now, pos, outRows, outKeys)
    requires UniqueIds(outRows) && RowsIn(sc, ds, outRows)
    ensures Built(items, now, MapOf(ds, outRows))
  {
    hide Sorted, Carries, DictsOK, Decode, UniqueIds, InOrder, MapOf, RowsIn, NewestExpired;
    SortedParts(sc, ds, shifts, keys, rows, items, perm);
    CarriesLen(sc, ds, rows, items);
    var m := MapOf(ds, outRows);
    forall t | t in m
      ensures exists i :: NewestOf(items, t, i) && m[t] == items[i].entry && !Expired(m[t].expire, now)
    {
      var r := MapOfKey(ds, outRows, t);
      MapOfLookup(sc, ds, outRows, r);
      var p := perm[pos[r]];
      CarriesAt(sc, ds, rows, items, p);
      HeadIsNewest(sc, ds, shifts, keys, rows, items, perm, pos[r]);
      assert NewestOf(items, t, p);
    }
    forall k | 0 <= k < |items| && items[k].tuple !in m ensures NewestExpired(items, now, items[k].tuple) {
      UnpickedExpired(sc, ds, shifts, keys, rows, items, perm, now, pos, outRows, outKeys, k);
    }
  }

  // A tuple without a row was headed by an expired record.
  lemma UnpickedExpired(sc: Schema, ds: Dicts, shifts: seq<nat>, keys: seq<nat>, rows: seq<Row>, items: seq<Item>,
          perm: seq<nat>, now: int, pos: seq<nat>, outRows: seq<Row>, outKeys: seq<nat>, k: nat)
    requires Sorted(sc, ds, shifts, keys, rows, items, perm) && |keys| == |rows|
    requires forall i :: 0 <= i < |perm| ==> perm[i] < |rows|
    requires Picked(keys, rows, perm, now, pos, outRows, outKeys)
    requires UniqueIds(outRows) && RowsIn(sc, ds, outRows)
    requires k < |items| && items[k].tuple !in MapOf(ds, outRows)
    ensures NewestExpired(items, now, items[k].tuple)
  {
    hide Sorted, Carries, DictsOK, Decode, UniqueIds, InOrder, MapOf, RowsIn, NewestOf;
    SortedParts(sc, ds, shifts, keys, rows, items, perm);
    CarriesLen(sc, ds, rows, items);
    assert k in perm;
    var i :| 0 <= i < |perm| && perm[i] == k;
    var h := HeadOf(rows, perm, i);
    HeadIsNewest(sc, ds, shifts, keys, rows, items, perm, h);
    SameTuple(sc, ds, rows, items, k, perm[h]);
    CarriesAt(sc, ds, rows, items, perm[h]);
    if !Expired(rows[perm[h]].expire, now) {
      assert h in pos;
      var q :| 0 <= q < |pos| && pos[q] == h;
      MapOfLookup(sc, ds, outRows, q);
      assert false;
    }
  }

  lemma SortedParts(sc: Schema, ds: Dicts, shifts: seq<nat>, keys: seq<nat>, rows: seq<Row>, items: seq<Item>,
          perm: seq<nat>)
    requires Sorted(sc, ds, shifts, keys, rows, items, perm)
    ensures Carries(sc, ds, rows, items) && (forall r :: 0 <= r < |rows| ==> r in perm)
  {
  }

  // ---- Reading the dump ----

  ghost predicate OwnDicts(sc: Schema, dicts: seq<Dict>)
    reads dicts
  {
    AllValid(sc, dicts) && forall i, j :: 0 <= i < j < |dicts| ==> dicts[i] != dicts[j]
  }

  // Exactly the values the items carry.
  ghost predicate HoldsExactly(ds: Dicts, items: seq<Item>) {
    forall d, x :: 0 <= d < |ds| ==>
      (x in ds[d] <==> exists i :: 0 <= i < |items| && d < |items[i].tuple| && items[i].tuple[d] == x)
  }

  // Adds values below dimension d of one tuple.
  ghost predicate GrownBy(src: Dicts, dst: Dicts, ids: seq<nat>, d: nat) {
    && |src| == |dst| && d <= |dst| && d <= |ids|
    && (forall i, x :: 0 <= i < d ==> (x in dst[i] <==> x in src[i] || (ids[i] < |dst[i]| && x == dst[i][ids[i]])))
    && (forall i :: d <= i < |dst| ==> dst[i] == src[i])
  }

  method InternDim(sc: Schema, dicts: seq<Dict>, d: nat, v: Value) returns (id: nat)
    requires OwnDicts(sc, dicts) && d < |sc.dims| && KindOK(v, sc.dims[d].isInt)
    modifies dicts[d]
    ensures OwnDicts(sc, dicts)
    ensures var (e, e') := (old(Entries(dicts)), Entries(dicts));
            && |e| == |e'| == |sc.dims| && (forall i :: 0 <= i < |e| && i != d ==> e'[i] == e[i])
            && e'[d] == (if v in e[d] then e[d] else e[d] + [v])
            && id < |e'[d]| && e'[d][id] == v
  {
    hide Dict.Valid;
    ghost var e := Entries(dicts);
    id := dicts[d].GetOrAdd(v);
    assert forall i :: 0 <= i < |dicts| && i != d ==> dicts[i].vals == e[i];
  }

  method InternTuple(sc: Schema, dicts: seq<Dict>, dims: seq<Text>) returns (r: Option<seq<nat>>)
    requires OwnDicts(sc, dicts) && |dims| == |sc.dims|
    modifies dicts
    ensures OwnDicts(sc, dicts) && Extends(old(Entries(dicts)), Entries(dicts))
    ensures r.None? <==> TupleOf(sc, dims, |dims|).None?
    ensures r.Some? ==> Resolved(sc, Entries(dicts), dims, r.value, |dims|)
    ensures r.Some? ==> GrownBy(old(Entries(dicts)), Entries(dicts), r.value, |dims|)
  {
    hide Dict.Valid, TupleOf, Resolved, ValueOf, GrownBy, Extends;
    var ids: seq<nat> := [];
    ResolvedNone(sc, Entries(dicts), dims);
    ExtendsRefl(Entries(dicts));
    GrownNone(Entries(dicts));
    for d := 0 to |dims|
      invariant OwnDicts(sc, dicts) && Extends(old(Entries(dicts)), Entries(dicts)) && |ids| == d
      invariant Resolved(sc, Entries(dicts), dims, ids, d)
      invariant GrownBy(old(Entries(dicts)), Entries(dicts), ids, d)
    {
      var v := ValueOf(sc, d, dims[d]);
      if v.None? {
        BadSpelling(sc, dims, d);
        return None;
      }
      ValueKind(sc, d, dims[d]);
      ghost var e := Entries(dicts);
      var id := InternDim(sc, dicts, d, v.value);
      GrowStep(old(Entries(dicts)), e, Entries(dicts), ids, d, id, v.value);
      ResolveStep(sc, e, Entries(dicts), dims, ids, id, d);
      ExtendsTrans(old(Entries(dicts)), e, Entries(dicts));
      ids := ids + [id];
    }
    ResolvedAll(sc, Entries(dicts), dims, ids);
    r := Some(ids);
  }

  lemma GrownNone(ds: Dicts)
    ensures GrownBy(ds, ds, [], 0)
  {
  }

  lemma GrowStep(src: Dicts, e: Dicts, e': Dicts, ids: seq<nat>, d: nat, id: nat, v: Value)
    requires GrownBy(src, e, ids, d) && |e| == |e'| && d < |e| && |ids| == d
    requires forall i :: 0 <= i < |e| && i != d ==> e'[i] == e[i]
    requires id < |e'[d]| && e'[d][id] == v && e'[d] == (if v in e[d] then e[d] else e[d] + [v])
    ensures GrownBy(src, e', ids + [id], d + 1) && Extends(e, e')
  {
  }

  // One more record interned.
  lemma CarryStep(sc: Schema, ds: Dicts, ds': Dicts, rows: seq<Row>, items: seq<Item>, row: Row, item: Item)
    requires Carries(sc, ds, rows, items) && Extends(ds, ds') && DictsOK(sc, ds')
    requires InRange(ds', row.ids) && |row.mets| == |sc.metrics|
    requires Decode(ds', row.ids) == item.tuple && EntryOf(row) == item.entry
    ensures Carries(sc, ds', rows + [row], items + [item])
  {
    forall i | 0 <= i < |rows| ensures InRange(ds', rows[i].ids) && Decode(ds', rows[i].ids) == items[i].tuple {
      DecodeExtend(ds, ds', rows[i].ids);
    }
  }

  lemma ExactStep(ds: Dicts, ds': Dicts, ids: seq<nat>, items: seq<Item>, item: Item)
    requires HoldsExactly(ds, items) && InRange(ds', ids) && GrownBy(ds, ds', ids, |ds|)
               && Decode(ds', ids) == item.tuple
    ensures HoldsExactly(ds', items + [item])
  {
    var items' := items + [item];
    forall d, x | 0 <= d < |ds'|
      ensures x in ds'[d] <==> exists i :: 0 <= i < |items'| && d < |items'[i].tuple| && items'[i].tuple[d] == x
    {
      assert item.tuple[d] == ds'[d][ids[d]];
      assert items'[|items|] == item;
      if x in ds[d] {
        var i :| 0 <= i < |items| && d < |items[i].tuple| && items[i].tuple[d] == x;
        assert items'[i] == items[i];
      }
      if i :| 0 <= i < |items'| && d < |items'[i].tuple| && items'[i].tuple[d] == x {
        if i < |items| {
          assert items[i].tuple[d] == x;
        }
      }
    }
  }

  lemma {:induction false} BadStaysBad(sc: Schema, recs: seq<Record>, i: nat, cutoff: int)
    requires i <= |recs| && Accepted(sc, recs[..i], cutoff).None?
    ensures Accepted(sc, recs, cutoff).None?
    decreases |recs|
  {
    if i == |recs| {
      assert recs[..i] == recs;
    } else {
      assert recs[..|recs| - 1][..i] == recs[..i];
      BadStaysBad(sc, recs[..|recs| - 1], i, cutoff);
    }
  }

  lemma AcceptStep(sc: Schema, recs: seq<Record>, i: nat, cutoff: int)
    requires i < |recs| && Accepted(sc, recs[..i], cutoff).Some?
    ensures var items := Accepted(sc, recs[..i], cutoff).value;
            match Read(sc, recs[i], cutoff)
            case Bad => Accepted(sc, recs, cutoff).None?
            case Skip => Accepted(sc, recs[..i + 1], cutoff) == Some(items)
            case Use(t, e) => Accepted(sc, recs[..i + 1], cutoff) == Some(items + [Item(t, e)])
  {
    assert recs[..i + 1][..i] == recs[..i];
    if Read(sc, recs[i], cutoff) == Bad {
      BadStaysBad(sc, recs, i + 1, cutoff);
    }
  }

  // What the reading loop keeps.
  ghost predicate Reading(sc: Schema, dicts: seq<Dict>, rows: seq<Row>, items: seq<Item>)
    reads dicts
  {
    && OwnDicts(sc, dicts)
    && Carries(sc, Entries(dicts), rows, items)
    && HoldsExactly(Entries(dicts), items)
  }

  // One record: None when bad, otherwise the rows it adds (none or one).
  method ReadRecord(sc: Schema, dicts: seq<Dict>, rows: seq<Row>, ghost items: seq<Item>, rec: Record, cutoff: int)
    returns (ok: bool, rows': seq<Row>, ghost items': seq<Item>)
    requires Reading(sc, dicts, rows, items)
    modifies dicts
    ensures ok <==> Read(sc, rec, cutoff) != Bad
    ensures ok ==> Reading(sc, dicts, rows', items')
    ensures Read(sc, rec, cutoff).Skip? ==> items' == items
    ensures Read(sc, rec, cutoff).Use? ==>
              items' == items + [Item(Read(sc, rec, cutoff).tuple, Read(sc, rec, cutoff).entry)]
  {
    hide Dict.Valid, TupleOf, Decode, HoldsExactly, GrownBy, Extends, Carries, DictsOK;
    ok, rows', items' := true, rows, items;
    if |rec.dims| != |sc.dims| || |rec.mets| != |sc.metrics| {
      return false, rows, items;
    }
    if rec.updated < cutoff {
      return;
    }
    ghost var e := Entries(dicts);
    var ids := InternTuple(sc, dicts, rec.dims);
    if ids.None? {
      return false, rows, items;
    }
    var row := Row(ids.value, rec.mets, rec.updated, ExpireMilli(rec.expireAt));
    ghost var item := Item(TupleOf(sc, rec.dims, |rec.dims|).value, EntryOf(row));
    EntriesOK(sc, dicts);
    ResolvedAll(sc, Entries(dicts), rec.dims, ids.value);
    assert InRange(Entries(dicts), ids.value);
    CarryStep(sc, e, Entries(dicts), rows, items, row, item);
    ExactStep(e, Entries(dicts), ids.value, items, item);
    rows', items' := rows + [row], items + [item];
  }

  method ReadAll(sc: Schema, recs: seq<Record>, cutoff: int) returns (ok: bool, dicts: seq<Dict>, rows: seq<Row>)
    ensures fresh(dicts)
    ensures ok <==> Accepted(sc, recs, cutoff).Some?
    ensures ok ==> Reading(sc, dicts, rows, Accepted(sc, recs, cutoff).value)
  {
    hide Reading, Accepted, Read;
    dicts := NewDicts(sc);
    rows := [];
    ghost var items: seq<Item> := [];
    ReadNothing(sc, dicts, recs, cutoff);
    for i := 0 to |recs|
      invariant fresh(dicts)
      invariant Reading(sc, dicts, rows, items)
      invariant Accepted(sc, recs[..i], cutoff) == Some(items)
    {
      AcceptStep(sc, recs, i, cutoff);
      ok, rows, items := ReadRecord(sc, dicts, rows, items, recs[i], cutoff);
      if !ok {
        return;
      }
    }
    assert recs[..|recs|] == recs;
    ok := true;
  }

  lemma ReadNothing(sc: Schema, dicts: seq<Dict>, recs: seq<Record>, cutoff: int)
    requires OwnDicts(sc, dicts) && forall d :: 0 <= d < |dicts| ==> dicts[d].vals == []
    ensures Reading(sc, dicts, [], []) && Accepted(sc, recs[..0], cutoff) == Some([])
  {
    EntriesOK(sc, dicts);
  }

  // ---- buildFromRecords ----

  datatype Outcome = BadRecord | KeyOverflow | Made(snap: Engine.Snapshot)

  // Bits the index dimensions need for every value the dump mentions, kept or not.
  ghost function DumpWidth(sc: Schema, items: seq<Item>): nat {
    Width(seq(sc.indexDims, (d: nat) => |ItemValues(items, d)|))
  }

  ghost function ItemValues(items: seq<Item>, d: nat): set<Value> {
    set i | 0 <= i < |items| && d < |items[i].tuple| :: items[i].tuple[d]
  }

  lemma DumpCards(sc: Schema, ds: Dicts, items: seq<Item>)
    requires DictsOK(sc, ds) && HoldsExactly(ds, items) && sc.indexDims <= |ds|
    ensures Width(IndexCards(sc, ds)) == DumpWidth(sc, items)
  {
    hide Width;
    forall d | 0 <= d < sc.indexDims ensures |ds[d]| == |ItemValues(items, d)| {
      assert DictOK(ds[d], sc.dims[d].isInt);
      Compaction.DistinctCard(ds[d], ItemValues(items, d));
    }
    assert IndexCards(sc, ds) == seq(sc.indexDims, (d: nat) => |ItemValues(items, d)|);
  }

  // A fresh snapshot from a dump: rows below the cutoff are ignored, the newest record of
  // each tuple decides, and it is dropped when it has expired by now.
  method BuildFromRecords(sc: Schema, recs: seq<Record>, cutoff: int, now: int) returns (r: Outcome)
    requires sc.Valid()
    ensures r.BadRecord? <==> Accepted(sc, recs, cutoff).None?
    ensures r.KeyOverflow? <==> Accepted(sc, recs, cutoff).Some? && DumpWidth(sc, Accepted(sc, recs, cutoff).value) > 64
    ensures r.Made? ==> fresh(r.snap) && r.snap.Valid(sc)
                        && Built(Accepted(sc, recs, cutoff).value, now, MapOf(Entries(r.snap.dicts), r.snap.rows))
  {
    hide Accepted, Built, DumpWidth, Carries, HoldsExactly, DictsOK, Layout, OwnDicts, Dict.Valid, SnapOK, Schema.Valid;
    var ok, dicts, rows := ReadAll(sc, recs, cutoff);
    if !ok {
      return BadRecord;
    }
    ghost var items := Accepted(sc, recs, cutoff).value;
    ghost var ds := Entries(dicts);
    OwnedAreValid(sc, dicts);
    SchemaIndex(sc);
    DumpCards(sc, ds, items);
    var sh := ComputeShifts(Cards(Entries(dicts)), sc.indexDims);
    if sh.Overflow? {
      return KeyOverflow;
    }
    var snap := SortAndDedupe(sc, dicts, sh.shifts, rows, items, now);
    r := Made(snap);
  }

  lemma SchemaIndex(sc: Schema)
    requires sc.Valid()
    ensures sc.indexDims <= |sc.dims|
  {
  }

  lemma OwnedAreValid(sc: Schema, dicts: seq<Dict>)
    requires OwnDicts(sc, dicts)
    ensures AllValid(sc, dicts) && DictsOK(sc, Entries(dicts)) && |Entries(dicts)| == |sc.dims|
  {
    EntriesOK(sc, dicts);
  }

  method RowKeys(sc: Schema, ghost ds: Dicts, shifts: seq<nat>, rows: seq<Row>) returns (keys: seq<nat>)
    requires sc.Valid() && RowsIn(sc, ds, rows) && |ds| == |sc.dims| && Layout(shifts, IndexCards(sc, ds))
    ensures KeysOfIds(shifts, keys, rows)
  {
    keys := [];
    for r := 0 to |rows|
      invariant |keys| == r
      invariant forall i :: 0 <= i < r ==> |shifts| <= |rows[i].ids| && keys[i] == KeyOf(shifts, rows[i].ids)
    {
      RowFits(sc, ds, shifts, rows[r].ids);
      var k := PackKey(shifts, rows[r].ids);
      keys := keys + [k];
    }
  }

  lemma RowFits(sc: Schema, ds: Dicts, shifts: seq<nat>, ids: seq<nat>)
    requires sc.Valid() && |ds| == |sc.dims| && InRange(ds, ids) && Layout(shifts, IndexCards(sc, ds))
    ensures Nested(shifts, ids)
  {
    FitsBelow(IndexCards(sc, ds), ids[..sc.indexDims]);
    LayoutNested(shifts, IndexCards(sc, ds), ids[..sc.indexDims]);
    Engine.NestedTake(shifts, ids, sc.indexDims);
  }

  method SortAndDedupe(sc: Schema, dicts: seq<Dict>, shifts: seq<nat>, rows: seq<Row>, ghost items: seq<Item>, now: int)
    returns (snap: Engine.Snapshot)
    requires sc.Valid() && AllValid(sc, dicts) && Carries(sc, Entries(dicts), rows, items)
    requires Layout(shifts, IndexCards(sc, Entries(dicts)))
    ensures fresh(snap) && snap.Valid(sc) && Built(items, now, MapOf(Entries(snap.dicts), snap.rows))
  {
    hide Layout, DictsOK, InOrder, Permutes, KeptHeads, Dict.Valid, UniqueIds, Scalars, Built, AllValid,
      Schema.Valid;
    ghost var ds := Entries(dicts);
    EntriesOK(sc, dicts);
    ArityOf(sc, ds, rows, items);
    var keys := RowKeys(sc, ds, shifts, rows);
    var perm := SortRows(keys, rows, |sc.dims|);
    PermBounds(perm, |rows|);
    var outRows, outKeys;
    ghost var pos;
    outRows, outKeys, pos := Dedupe(keys, rows, perm, now);
    PickedUnique(sc, ds, shifts, keys, rows, items, perm, now, pos, outRows, outKeys);
    PickedBuilt(sc, ds, shifts, keys, rows, items, perm, now, pos, outRows, outKeys);
    snap := Merge.Assemble(dicts, shifts, outRows, outKeys);
    BuiltSnap(sc, snap.Model());
  }

  lemma ArityOf(sc: Schema, ds: Dicts, rows: seq<Row>, items: seq<Item>)
    requires Carries(sc, ds, rows, items)
    ensures SameArity(rows, |sc.dims|) && RowsIn(sc, ds, rows) && |ds| == |sc.dims|
  {
  }

  lemma PermBounds(perm: seq<nat>, n: nat)
    requires Permutes(perm, n)
    ensures forall k :: 0 <= k < |perm| ==> perm[k] < n
  {
  }

  lemma BuiltSnap(sc: Schema, s: SnapV)
    requires sc.Valid() && DictsOK(sc, s.dicts) && RowsIn(sc, s.dicts, s.rows) && UniqueIds(s.rows)
    requires Layout(s.shifts, IndexCards(sc, s.dicts)) && Ascending(s.keys) && Scalars(s) && |s.keys| == |s.rows|
    requires forall i :: 0 <= i < |s.rows| ==>
               |s.shifts| <= |s.rows[i].ids| && s.keys[i] == KeyOf(s.shifts, s.rows[i].ids)
    ensures SnapOK(sc, s)
  {
    hide Scalars, UniqueIds, DictsOK, Ascending;
  }
}
