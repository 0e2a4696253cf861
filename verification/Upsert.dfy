// Apply: a batch of records becomes a new view; the old one stays as it was.
module Upsert {
  import opened Decimal
  import opened Table
  import opened Dictionary
  import opened Engine
  import Bits
  import opened Bitmap
  import opened Oracle

  // ---- Value lemmas: one upsert on the view ----

  function CombOf(v: ViewV): Dicts {
    Comb(v.base.dicts, v.extras)
  }

  lemma CombLen(sc: Schema, v: View)
    requires v.Valid(sc)
    ensures |CombOf(v.Model())| == |sc.dims|
  {
  }

  // Extras only grow behind existing ids, so everything already stored keeps its meaning.
  lemma ExtrasGrow(sc: Schema, v: ViewV, extras: Dicts)
    requires ViewOK(sc, v) && Extends(v.extras, extras)
    requires DictsOK(sc, Comb(v.base.dicts, extras))
    ensures ViewOK(sc, v.(extras := extras))
    ensures Abs(v.(extras := extras)) == Abs(v)
  {
    var (ds, ds') := (CombOf(v), Comb(v.base.dicts, extras));
    assert Extends(ds, ds') by {
      forall d | 0 <= d < |ds| ensures ds[d] <= ds'[d] {
        assert v.extras[d] <= extras[d];
      }
    }
    CombExtends(v.base.dicts, v.extras);
    MapOfExtend(sc, v.base.dicts, ds, v.base.rows);
    MapOfExtend(sc, ds, ds', v.base.rows);
    MapOfExtend(sc, ds, ds', v.delta.rows);
  }

  lemma BaseInComb(sc: Schema, v: ViewV)
    requires ViewOK(sc, v)
    ensures RowsIn(sc, CombOf(v), v.base.rows)
    ensures MapOf(CombOf(v), v.base.rows) == MapOf(v.base.dicts, v.base.rows)
  {
    CombExtends(v.base.dicts, v.extras);
    MapOfExtend(sc, v.base.dicts, CombOf(v), v.base.rows);
  }

  lemma IndexedUnique(d: DeltaV)
    requires Indexed(d)
    ensures UniqueIds(d.rows)
  {
  }

  // Where a tuple of the combined id space is stored, and what the view says of it.
  lemma AbsAt(sc: Schema, v: ViewV, ids: seq<nat>)
    requires ViewOK(sc, v) && InRange(CombOf(v), ids)
    ensures var t := Decode(CombOf(v), ids);
            && (ids in v.delta.index ==> t in Abs(v) && Abs(v)[t] == EntryOf(v.delta.rows[v.delta.index[ids]]))
            && (ids !in v.delta.index ==>
                  forall r :: 0 <= r < |v.base.rows| && v.base.rows[r].ids == ids ==>
                    t in Abs(v) && Abs(v)[t] == EntryOf(v.base.rows[r]))
            && (ids !in v.delta.index && (forall r :: 0 <= r < |v.base.rows| ==> v.base.rows[r].ids != ids) ==>
                 t !in Abs(v))
  {
    var (ds, t) := (CombOf(v), Decode(CombOf(v), ids));
    BaseInComb(sc, v);
    IndexedUnique(v.delta);
    if ids in v.delta.index {
      MapOfLookup(sc, ds, v.delta.rows, v.delta.index[ids]);
    } else {
      if t in MapOf(ds, v.delta.rows) {
        var r := MapOfKey(ds, v.delta.rows, t);
        DecodeInjective(sc, ds, v.delta.rows[r].ids, ids);
        assert false;
      }
      forall r | 0 <= r < |v.base.rows| && v.base.rows[r].ids == ids
        ensures t in Abs(v) && Abs(v)[t] == EntryOf(v.base.rows[r])
      {
        MapOfLookup(sc, ds, v.base.rows, r);
      }
      if t in MapOf(ds, v.base.rows) {
        var r := MapOfKey(ds, v.base.rows, t);
        DecodeInjective(sc, ds, v.base.rows[r].ids, ids);
      }
    }
  }

  lemma {:induction false} MaxUpdatedReplace(rows: seq<Row>, i: nat, x: Row)
    requires i < |rows| && rows[i].updated <= x.updated
    ensures MaxUpdated(rows[i := x]) == Max(MaxUpdated(rows), x.updated)
  {
    var n := |rows| - 1;
    if i == n {
      assert rows[i := x][..n] == rows[..n];
    } else {
      assert rows[i := x][..n] == rows[..n][i := x];
      MaxUpdatedReplace(rows[..n], i, x);
    }
  }

  lemma ReplaceDeltaOK(d: DeltaV, row: Row)
    requires DeltaOK(d) && row.ids in d.index && d.rows[d.index[row.ids]].updated <= row.updated
    ensures DeltaOK(ReplaceRow(d, row))
  {
    MaxUpdatedReplace(d.rows, d.index[row.ids], row);
    MaxUpdatedExact(d.rows);
    assert Indexed(ReplaceRow(d, row));
  }

  lemma ReplaceShadowing(base: seq<Row>, d: DeltaV, row: Row, overridden: seq<nat>)
    requires Indexed(d) && row.ids in d.index && d.rows[d.index[row.ids]].updated <= row.updated
    requires Indexed(ReplaceRow(d, row)) && Shadowing(base, d, overridden)
    ensures Shadowing(base, ReplaceRow(d, row), overridden)
  {
  }

  lemma ReplaceOK(sc: Schema, v: ViewV, row: Row)
    requires ViewOK(sc, v) && InRange(CombOf(v), row.ids) && |row.mets| == |sc.metrics|
    requires row.ids in v.delta.index && v.delta.rows[v.delta.index[row.ids]].updated <= row.updated
    ensures ViewOK(sc, v.(delta := ReplaceRow(v.delta, row)))
    ensures Abs(v.(delta := ReplaceRow(v.delta, row))) == Abs(v)[Decode(CombOf(v), row.ids) := EntryOf(row)]
  {
    hide Keyed, Scalars, Shadowing, Decode, MapOf, MaxUpdated;
    ReplaceDeltaOK(v.delta, row);
    ReplaceShadowing(v.base.rows, v.delta, row, v.overridden);
    IndexedUnique(v.delta);
    MapOfReplace(sc, CombOf(v), v.delta.rows, v.delta.index[row.ids], row);
  }

  lemma AppendDeltaOK(d: DeltaV, row: Row)
    requires DeltaOK(d) && row.ids !in d.index
    ensures DeltaOK(AppendRow(d, row))
  {
    var d' := AppendRow(d, row);
    assert d'.rows[..|d.rows|] == d.rows;
    assert forall r :: 0 <= r < |d.rows| ==> d'.rows[r] == d.rows[r];
  }

  lemma AppendShadowing(sc: Schema, v: ViewV, row: Row, br: int, overridden: seq<nat>)
    requires ViewOK(sc, v) && row.ids !in v.delta.index
    requires Indexed(AppendRow(v.delta, row))
    requires -1 <= br < |v.base.rows|
    requires br >= 0 ==> v.base.rows[br].ids == row.ids && v.base.rows[br].updated <= row.updated
    requires br < 0 ==> forall r :: 0 <= r < |v.base.rows| ==> v.base.rows[r].ids != row.ids
    requires forall r: nat :: BitGet(overridden, r) <==> r == br || BitGet(v.overridden, r)
    ensures Shadowing(v.base.rows, AppendRow(v.delta, row), overridden)
  {
    var d' := AppendRow(v.delta, row);
    forall r: nat | r < |v.base.rows|
      ensures BitGet(overridden, r) <==> v.base.rows[r].ids in d'.index
      ensures v.base.rows[r].ids in d'.index ==> v.base.rows[r].updated <= d'.rows[d'.index[v.base.rows[r].ids]].updated
    {
      if v.base.rows[r].ids == row.ids {
        assert br >= 0;
        assert r == br;
      }
    }
  }

  lemma AppendOK(sc: Schema, v: ViewV, row: Row, br: int, overridden: seq<nat>)
    requires ViewOK(sc, v) && InRange(CombOf(v), row.ids) && |row.mets| == |sc.metrics|
    requires row.ids !in v.delta.index
    requires -1 <= br < |v.base.rows|
    requires br >= 0 ==> v.base.rows[br].ids == row.ids && v.base.rows[br].updated <= row.updated
    requires br < 0 ==> forall r :: 0 <= r < |v.base.rows| ==> v.base.rows[r].ids != row.ids
    requires forall r: nat :: BitGet(overridden, r) <==> r == br || BitGet(v.overridden, r)
    requires |overridden| == |v.overridden|
    ensures ViewOK(sc, v.(delta := AppendRow(v.delta, row), overridden := overridden))
    ensures Abs(v.(delta := AppendRow(v.delta, row), overridden := overridden))
            == Abs(v)[Decode(CombOf(v), row.ids) := EntryOf(row)]
  {
    hide SnapOK, DictsOK, Shadowing, BitGet, Decode, MapOf, MaxUpdated, InRange;
    AppendDeltaOK(v.delta, row);
    AppendShadowing(sc, v, row, br, overridden);
    MapOfAppend(CombOf(v), v.delta.rows, row);
  }

  lemma MapOfAppend(ds: Dicts, rows: seq<Row>, row: Row)
    ensures MapOf(ds, rows + [row]) == MapOf(ds, rows)[Decode(ds, row.ids) := EntryOf(row)]
  {
    assert (rows + [row])[..|rows|] == rows;
  }

  // ---- Interning with lazily cloned dictionaries ----

  // A dictionary this batch has cloned is reachable from nowhere else.
  ghost predicate OwnedOK(base: seq<Dict>, extras: seq<Dict>, owned: seq<bool>) {
    && |owned| == |extras|
    && forall d :: 0 <= d < |extras| && owned[d] ==>
         extras[d] !in base && forall e :: 0 <= e < |extras| && e != d ==> extras[e] != extras[d]
  }

  ghost function OwnedDicts(extras: seq<Dict>, owned: seq<bool>): set<Dict> {
    set d | 0 <= d < |extras| && d < |owned| && owned[d] :: extras[d]
  }

  // The id of v in one dimension's combined space; a new value goes to extras, which
  // is cloned first unless this batch already owns it.
  method Intern(base: Dict, extra: Dict, owned: bool, v: Value)
    returns (id: nat, extra': Dict, inBase: bool)
    requires base.Valid() && extra.Valid() && extra.numeric == base.numeric && KindOK(v, base.numeric)
    requires Distinct(base.vals + extra.vals)
    requires owned ==> extra != base
    modifies if owned then {extra} else {}
    ensures base.Valid() && extra'.Valid() && extra'.numeric == base.numeric
    ensures extra' == extra || (fresh(extra') && !owned)
    ensures !owned ==> extra.vals == old(extra.vals)
    ensures base.vals == old(base.vals)
    ensures old(extra.vals) <= extra'.vals && Distinct(base.vals + extra'.vals)
    ensures id < |base.vals| + |extra'.vals| && (base.vals + extra'.vals)[id] == v
    ensures inBase <==> id < |base.vals|
  {
    hide Distinct, Dict.Valid, DictOK, KindOK;
    extra' := extra;
    var b := base.Lookup(v);
    if b.Some? {
      return b.value, extra, true;
    }
    inBase := false;
    var x := extra.Lookup(v);
    if x.Some? {
      return |base.vals| + x.value, extra, false;
    }
    if !owned {
      extra' := extra.Clone();
    }
    ghost var was := extra.vals;
    var n := extra'.GetOrAdd(v);
    id := |base.vals| + n;
    DistinctSnoc(base.vals + was, v);
    assert base.vals + (was + [v]) == base.vals + was + [v];
  }

  lemma DistinctSnoc(s: seq<Value>, v: Value)
    requires Distinct(s) && v !in s
    ensures Distinct(s + [v])
  {
  }

  // Dimensions below d are resolved: ids spell the tuple read so far.
  ghost predicate Resolved(sc: Schema, comb: Dicts, dims: seq<Text>, ids: seq<nat>, d: nat)
    requires d <= |dims| == |sc.dims|
  {
    && |ids| == d <= |comb|
    && (forall i :: 0 <= i < d ==> ids[i] < |comb[i]|)
    && TupleOf(sc, dims, d) == Some(Decode(comb, ids))
  }

  lemma ResolveStep(sc: Schema, comb: Dicts, comb': Dicts, dims: seq<Text>, ids: seq<nat>, id: nat, d: nat)
    requires d < |dims| == |sc.dims| == |comb| && Resolved(sc, comb, dims, ids, d)
    requires Extends(comb, comb') && id < |comb'[d]| && ValueOf(sc, d, dims[d]) == Some(comb'[d][id])
    ensures Resolved(sc, comb', dims, ids + [id], d + 1)
  {
    forall i | 0 <= i < d ensures ids[i] < |comb'[i]| && ValueAt(comb', i, ids[i]) == ValueAt(comb, i, ids[i]) {
      assert comb[i] <= comb'[i];
    }
    assert Decode(comb', ids + [id]) == Decode(comb, ids) + [comb'[d][id]];
  }

  lemma CombStep(base: Dicts, extras: Dicts, extras': Dicts)
    requires |base| == |extras| && Extends(extras, extras')
    ensures Extends(Comb(base, extras), Comb(base, extras'))
  {
    var (c, c') := (Comb(base, extras), Comb(base, extras'));
    forall d | 0 <= d < |c| ensures c[d] <= c'[d] {
      assert extras[d] <= extras'[d];
    }
  }

  // The dictionaries of a view under construction.
  ghost predicate Ready(sc: Schema, base: seq<Dict>, extras: seq<Dict>, owned: seq<bool>)
    reads base, extras
  {
    && AllValid(sc, base) && AllValid(sc, extras)
    && DictsOK(sc, Comb(Entries(base), Entries(extras)))
    && OwnedOK(base, extras, owned)
  }

  // Ownership only grows, and a dictionary not owned is still the shared one.
  ghost predicate Handover(extras: seq<Dict>, owned: seq<bool>, extras': seq<Dict>, owned': seq<bool>) {
    && |extras| == |owned| == |extras'| == |owned'|
    && (forall d :: 0 <= d < |extras| && owned[d] ==> owned'[d] && extras'[d] == extras[d])
    && (forall d :: 0 <= d < |extras| && !owned'[d] ==> extras'[d] == extras[d])
  }

  method ResolveDim(sc: Schema, base: seq<Dict>, extras: seq<Dict>, owned: seq<bool>, d: nat, v: Value)
    returns (id: nat, extras': seq<Dict>, owned': seq<bool>, inBase: bool)
    requires Ready(sc, base, extras, owned) && d < |sc.dims| && KindOK(v, sc.dims[d].isInt)
    modifies OwnedDicts(extras, owned)
    ensures Ready(sc, base, extras', owned') && Entries(base) == old(Entries(base))
    ensures Extends(old(Entries(extras)), Entries(extras'))
    ensures Handover(extras, owned, extras', owned')
    ensures forall i :: 0 <= i < |sc.dims| && owned'[i] && !owned[i] ==> fresh(extras'[i])
    ensures var comb := Comb(Entries(base), Entries(extras')); id < |comb[d]| && comb[d][id] == v
    ensures inBase <==> id < |Entries(base)[d]|
  {
    hide DictsOK, DictOK, Distinct, Extends, Dict.Valid, KindOK;
    ghost var (b0, e0) := (Entries(base), Entries(extras));
    CombAt(sc, b0, e0, d);
    var x;
    id, x, inBase := Intern(base[d], extras[d], owned[d], v);
    if x != extras[d] {
      extras', owned' := extras[d := x], owned[d := true];
    } else {
      extras', owned' := extras, owned;
    }
    KeepValid(sc, base, extras, extras', d);
    assert Entries(extras') == e0[d := x.vals];
    ValidKinds(x);
    CombSet(sc, b0, e0, d, x.vals);
  }

  lemma ValidKinds(x: Dict)
    requires x.Valid()
    ensures forall i :: 0 <= i < |x.vals| ==> KindOK(x.vals[i], x.numeric)
  {
  }

  lemma StartHandover(extras: seq<Dict>, owned: seq<bool>)
    requires |owned| == |extras|
    ensures Handover(extras, owned, extras, owned)
  {
  }

  lemma KeepValid(sc: Schema, base: seq<Dict>, extras: seq<Dict>, extras': seq<Dict>, d: nat)
    requires |extras| == |extras'| == |sc.dims| && d < |extras|
    requires forall i :: 0 <= i < |extras| && i != d ==>
               extras'[i] == extras[i] && extras[i].Valid() && extras[i].numeric == sc.dims[i].isInt
    requires extras'[d].Valid() && extras'[d].numeric == sc.dims[d].isInt
    ensures AllValid(sc, extras')
  {
  }

  lemma CombAt(sc: Schema, base: Dicts, extras: Dicts, d: nat)
    requires |base| == |extras| == |sc.dims| && d < |sc.dims| && DictsOK(sc, Comb(base, extras))
    ensures Comb(base, extras)[d] == base[d] + extras[d]
    ensures Distinct(base[d] + extras[d])
  {
    assert Comb(base, extras)[d] == base[d] + extras[d];
  }

  // Growing one dimension's extras keeps the combined dictionaries well formed.
  lemma CombSet(sc: Schema, base: Dicts, extras: Dicts, d: nat, vals: seq<Value>)
    requires |base| == |extras| == |sc.dims| && d < |sc.dims| && DictsOK(sc, Comb(base, extras))
    requires extras[d] <= vals && Distinct(base[d] + vals)
    requires forall i :: 0 <= i < |vals| ==> KindOK(vals[i], sc.dims[d].isInt)
    ensures DictsOK(sc, Comb(base, extras[d := vals]))
    ensures Comb(base, extras[d := vals])[d] == base[d] + vals
    ensures Extends(extras, extras[d := vals])
  {
    var (c, c') := (Comb(base, extras), Comb(base, extras[d := vals]));
    assert forall i :: 0 <= i < |c| && i != d ==> c'[i] == c[i];
    forall i | 0 <= i < |base[d] + vals| ensures KindOK((base[d] + vals)[i], sc.dims[d].isInt) {
      if i < |base[d]| {
        assert (base[d] + vals)[i] == c[d][i];
      }
    }
  }

  lemma ValueKind(sc: Schema, d: nat, s: Text)
    requires d < |sc.dims| && ValueOf(sc, d, s).Some?
    ensures KindOK(ValueOf(sc, d, s).value, sc.dims[d].isInt)
  {
  }

  ghost predicate Below(ds: Dicts, ids: seq<nat>) {
    forall i :: 0 <= i < |ids| ==> i < |ds| && ids[i] < |ds[i]|
  }

  lemma BelowStep(ds: Dicts, ids: seq<nat>, id: nat)
    requires |ids| < |ds|
    ensures Below(ds, ids + [id]) <==> Below(ds, ids) && id < |ds[|ids|]|
  {
    assert forall i :: 0 <= i < |ids| ==> (ids + [id])[i] == ids[i];
    assert (ids + [id])[|ids|] == id;
  }

  // Ids for one record's spellings; None when an integer dimension does not parse.
  method Resolve(sc: Schema, base: seq<Dict>, extras: seq<Dict>, owned: seq<bool>, dims: seq<Text>)
    returns (r: Option<seq<nat>>, extras': seq<Dict>, owned': seq<bool>, allInBase: bool)
    requires |dims| == |sc.dims| && Ready(sc, base, extras, owned)
    modifies OwnedDicts(extras, owned)
    ensures Ready(sc, base, extras', owned') && Entries(base) == old(Entries(base))
    ensures Extends(old(Entries(extras)), Entries(extras'))
    ensures Handover(extras, owned, extras', owned')
    ensures forall i :: 0 <= i < |sc.dims| && owned'[i] && !owned[i] ==> fresh(extras'[i])
    ensures r.None? <==> TupleOf(sc, dims, |dims|).None?
    ensures r.Some? ==> Resolved(sc, Comb(Entries(base), Entries(extras')), dims, r.value, |dims|)
    ensures r.Some? ==> (allInBase <==> InRange(Entries(base), r.value))
  {
    hide *;
    ReadyShape(sc, base, extras, owned);
    extras', owned', allInBase := extras, owned, true;
    var ids: seq<nat> := [];
    StartHandover(extras, owned);
    ExtendsRefl(Entries(extras));
    ResolvedNone(sc, Comb(Entries(base), Entries(extras')), dims);
    for d := 0 to |dims|
      invariant Ready(sc, base, extras', owned') && Entries(base) == old(Entries(base))
      invariant Extends(old(Entries(extras)), Entries(extras'))
      invariant Handover(extras, owned, extras', owned')
      invariant |owned'| == |extras'| == |sc.dims|
      invariant forall i :: 0 <= i < |sc.dims| && owned'[i] && !owned[i] ==> fresh(extras'[i])
      invariant Resolved(sc, Comb(Entries(base), Entries(extras')), dims, ids, d)
      invariant allInBase <==> Below(Entries(base), ids)
    {
      var v := ValueOf(sc, d, dims[d]);
      if v.None? {
        BadSpelling(sc, dims, d);
        return None, extras', owned', allInBase;
      }
      ValueKind(sc, d, dims[d]);
      ghost var (e0, c0) := (Entries(extras'), Comb(Entries(base), Entries(extras')));
      var id, inBase;
      ghost var (x0, o0) := (extras', owned');
      ReadyShape(sc, base, x0, o0);
      OwnedSplit(extras, owned, x0, o0);
      id, extras', owned', inBase := ResolveDim(sc, base, extras', owned', d, v.value);
      ReadyShape(sc, base, extras', owned');
      HandoverTrans(extras, owned, x0, o0, extras', owned');
      assert |Entries(base)| == |e0|;
      CombStep(Entries(base), e0, Entries(extras'));
      ResolveStep(sc, c0, Comb(Entries(base), Entries(extras')), dims, ids, id, d);
      ExtendsTrans(old(Entries(extras)), e0, Entries(extras'));
      BelowStep(Entries(base), ids, id);
      allInBase := allInBase && inBase;
      ids := ids + [id];
    }
    ResolvedAll(sc, Comb(Entries(base), Entries(extras')), dims, ids);
    BelowAll(Entries(base), ids);
    r := Some(ids);
  }

  lemma ReadyShape(sc: Schema, base: seq<Dict>, extras: seq<Dict>, owned: seq<bool>)
    requires Ready(sc, base, extras, owned)
    ensures |base| == |extras| == |owned| == |sc.dims|
    ensures |Entries(base)| == |Entries(extras)| == |Comb(Entries(base), Entries(extras))| == |sc.dims|
  {
  }

  lemma HandoverTrans(a: seq<Dict>, oa: seq<bool>, b: seq<Dict>, ob: seq<bool>, c: seq<Dict>, oc: seq<bool>)
    requires Handover(a, oa, b, ob) && Handover(b, ob, c, oc)
    ensures Handover(a, oa, c, oc)
    ensures forall d :: 0 <= d < |b| && ob[d] ==> c[d] == b[d]
  {
  }

  // What a batch owns is what it owned before, or newly acquired.
  lemma OwnedSplit(a: seq<Dict>, oa: seq<bool>, b: seq<Dict>, ob: seq<bool>)
    requires Handover(a, oa, b, ob)
    ensures forall o :: o in OwnedDicts(b, ob) ==>
              o in OwnedDicts(a, oa) || exists d :: 0 <= d < |b| && ob[d] && !oa[d] && b[d] == o
  {
  }

  lemma ResolvedAll(sc: Schema, comb: Dicts, dims: seq<Text>, ids: seq<nat>)
    requires |dims| == |sc.dims| && Resolved(sc, comb, dims, ids, |dims|)
    ensures |ids| == |dims| && TupleOf(sc, dims, |dims|).Some?
  {
  }

  lemma BelowAll(ds: Dicts, ids: seq<nat>)
    requires |ids| == |ds|
    ensures Below(ds, ids) <==> InRange(ds, ids)
  {
  }

  lemma ResolvedNone(sc: Schema, comb: Dicts, dims: seq<Text>)
    requires |dims| == |sc.dims|
    ensures Resolved(sc, comb, dims, [], 0) && Below(comb, [])
    ensures forall ds: Dicts :: Below(ds, [])
  {
    assert Decode(comb, []) == [];
  }

  // One unreadable spelling makes the whole tuple unreadable.
  lemma BadSpelling(sc: Schema, dims: seq<Text>, d: nat)
    requires d < |dims| == |sc.dims| && ValueOf(sc, d, dims[d]).None?
    ensures TupleOf(sc, dims, |dims|).None?
  {
    var n := d + 1;
    while n < |dims|
      invariant d < n <= |dims| && TupleOf(sc, dims, n).None?
    {
      n := n + 1;
    }
  }

  // ---- Storing one row ----

  // The five outcomes of an upsert, against the reference rule.
  lemma UpsertHit(sc: Schema, v: ViewV, row: Row, blocked: bool)
    requires ViewOK(sc, v) && InRange(CombOf(v), row.ids) && |row.mets| == |sc.metrics|
    requires row.ids in v.delta.index
    ensures var t := Decode(CombOf(v), row.ids);
            && t in Abs(v)
            && v.delta.index[row.ids] < |v.delta.rows|
            && (var r := v.delta.index[row.ids];
                if v.delta.rows[r].updated <= row.updated then
                  var v' := v.(delta := ReplaceRow(v.delta, row));
                  ViewOK(sc, v') && Abs(v') == Oracle.Upsert(Abs(v), t, EntryOf(row), blocked)
                else
                  row.updated <= v.delta.maxUpdated && Abs(v) == Oracle.Upsert(Abs(v), t, EntryOf(row), blocked))
  {
    hide Decode, MapOf, Keyed, Scalars, DictsOK, Shadowing;
    AbsAt(sc, v, row.ids);
    if v.delta.rows[v.delta.index[row.ids]].updated <= row.updated {
      ReplaceOK(sc, v, row);
    } else {
      MaxUpdatedExact(v.delta.rows);
    }
  }

  // br is where findRow located the tuple in the base, or -1.
  lemma UpsertMiss(sc: Schema, v: ViewV, row: Row, br: int, overridden: seq<nat>, blocked: bool)
    requires ViewOK(sc, v) && InRange(CombOf(v), row.ids) && |row.mets| == |sc.metrics|
    requires row.ids !in v.delta.index
    requires -1 <= br < |v.base.rows| && (br >= 0 ==> v.base.rows[br].ids == row.ids)
    requires br < 0 ==> forall r :: 0 <= r < |v.base.rows| ==> v.base.rows[r].ids != row.ids
    requires forall r: nat :: BitGet(overridden, r) <==> r == br || BitGet(v.overridden, r)
    requires |overridden| == |v.overridden|
    ensures var t := Decode(CombOf(v), row.ids);
            && (t in Abs(v) <==> br >= 0)
            && (if (br >= 0 && v.base.rows[br].updated > row.updated) || (br < 0 && blocked) then
                  Abs(v) == Oracle.Upsert(Abs(v), t, EntryOf(row), blocked)
                else
                  var v' := v.(delta := AppendRow(v.delta, row), overridden := overridden);
                  ViewOK(sc, v') && Abs(v') == Oracle.Upsert(Abs(v), t, EntryOf(row), blocked))
  {
    hide Decode, MapOf, Keyed, Scalars, DictsOK, Shadowing, BitGet;
    AbsAt(sc, v, row.ids);
    if (br >= 0 && v.base.rows[br].updated > row.updated) || (br < 0 && blocked) {
    } else {
      AppendOK(sc, v, row, br, overridden);
    }
  }

  // Ids outside the base dictionaries name no base row.
  lemma OutsideBase(sc: Schema, v: ViewV, ids: seq<nat>)
    requires ViewOK(sc, v) && !InRange(v.base.dicts, ids)
    ensures forall r :: 0 <= r < |v.base.rows| ==> v.base.rows[r].ids != ids
  {
  }

  ghost predicate BitsFor(overridden: seq<nat>, n: nat) {
    n <= 64 * |overridden|
  }

  method UpsertRow(sc: Schema, nv: View, row: Row, allInBase: bool, blocked: bool) returns (dropped: bool)
    requires nv.Valid(sc) && BitsFor(nv.overridden, |nv.base.rows|)
    requires InRange(CombOf(nv.Model()), row.ids) && |row.mets| == |sc.metrics|
    requires allInBase <==> InRange(Entries(nv.base.dicts), row.ids)
    modifies nv`overridden, nv.delta
    ensures nv.Valid(sc) && |nv.overridden| == old(|nv.overridden|)
    ensures var t := old(Decode(CombOf(nv.Model()), row.ids));
            && nv.Contents() == Oracle.Upsert(old(nv.Contents()), t, EntryOf(row), blocked)
            && (dropped <==> blocked && t !in old(nv.Contents()))
  {
    hide Decode, MapOf, ViewOK, SnapOK, Shadowing, BitGet, InRange, AllValid, Abs, Oracle.Upsert, MaxUpdated;
    ghost var m := nv.Model();
    var d := nv.delta;
    if row.ids in d.index {
      UpsertHit(sc, m, row, blocked);
      var r := d.index[row.ids];
      // a stale record is older than a stored one, so it never raises maxUpdated
      if d.rows[r].updated <= row.updated {
        d.Replace(row);
      }
      return false;
    }
    dropped := InsertRow(sc, nv, row, allInBase, blocked);
  }

  // The tuple is not in delta yet: look in the base, then append.
  method InsertRow(sc: Schema, nv: View, row: Row, allInBase: bool, blocked: bool) returns (dropped: bool)
    requires nv.Valid(sc) && BitsFor(nv.overridden, |nv.base.rows|)
    requires InRange(CombOf(nv.Model()), row.ids) && |row.mets| == |sc.metrics|
    requires allInBase <==> InRange(Entries(nv.base.dicts), row.ids)
    requires row.ids !in nv.delta.index
    modifies nv`overridden, nv.delta
    ensures nv.Valid(sc) && |nv.overridden| == old(|nv.overridden|)
    ensures var t := old(Decode(CombOf(nv.Model()), row.ids));
            && nv.Contents() == Oracle.Upsert(old(nv.Contents()), t, EntryOf(row), blocked)
            && (dropped <==> blocked && t !in old(nv.Contents()))
  {
    hide Decode, MapOf, ViewOK, SnapOK, Shadowing, BitGet, InRange, AllValid, Abs, Oracle.Upsert, MaxUpdated;
    ghost var m := nv.Model();
    var d := nv.delta;
    var br := -1;
    if allInBase {
      br := nv.base.FindRow(sc, row.ids);
    } else {
      OutsideBase(sc, m, row.ids);
    }
    var overridden := if br >= 0 then BitSet(nv.overridden, br) else nv.overridden;
    UpsertMiss(sc, m, row, br, overridden, blocked);
    if br >= 0 && nv.base.rows[br].updated > row.updated {
      return false;
    }
    if blocked && br < 0 {
      return true;
    }
    d.Append(row);
    nv.overridden := overridden;
    assert nv.Model() == m.(delta := AppendRow(m.delta, row), overridden := overridden);
    return false;
  }

  // ---- Applying a batch ----

  // What a partly applied batch keeps: nv is a valid view over v's base whose delta and
  // owned dictionaries belong to this batch alone.
  ghost predicate Building(sc: Schema, nv: View, owned: seq<bool>)
    reads nv, nv.base, nv.base.dicts, nv.delta, nv.extras
  {
    && nv.Valid(sc)
    && BitsFor(nv.overridden, |nv.base.rows|)
    && OwnedOK(nv.base.dicts, nv.extras, owned)
  }

  lemma BuildingReady(sc: Schema, nv: View, owned: seq<bool>)
    requires Building(sc, nv, owned)
    ensures Ready(sc, nv.base.dicts, nv.extras, owned)
    ensures |owned| == |nv.extras| == |sc.dims|
  {
  }

  lemma BuildingValid(sc: Schema, nv: View, owned: seq<bool>)
    requires Building(sc, nv, owned)
    ensures nv.Valid(sc)
  {
  }

  // Folds one record into nv. False when the record is bad.
  method ApplyRecord(sc: Schema, nv: View, rec: Record, owned: seq<bool>, cutoff: int, blocked: bool)
    returns (ok: bool, dropped: bool, owned': seq<bool>)
    requires Building(sc, nv, owned)
    modifies nv`extras, nv`overridden, nv.delta, OwnedDicts(nv.extras, owned)
    ensures ok <==> Read(sc, rec, cutoff) != Bad
    ensures Handover(old(nv.extras), owned, nv.extras, owned')
    ensures forall i :: 0 <= i < |sc.dims| && owned'[i] && !owned[i] ==> fresh(nv.extras[i])
    ensures ok ==> Building(sc, nv, owned')
    ensures Read(sc, rec, cutoff).Skip? ==> nv.Contents() == old(nv.Contents()) && !dropped
    ensures Read(sc, rec, cutoff).Use? ==>
              var Use(t, e) := Read(sc, rec, cutoff);
              && nv.Contents() == Oracle.Upsert(old(nv.Contents()), t, e, blocked)
              && (dropped <==> blocked && t !in old(nv.Contents()))
  {
    hide Decode, SnapOK, DictsOK, DeltaOK, Shadowing, RowsIn, Abs, Oracle.Upsert, TupleOf, DictOK, Dict.Valid, Extends;
    StartHandover(nv.extras, owned);
    owned', dropped := owned, false;
    if |rec.dims| != |sc.dims| || |rec.mets| != |sc.metrics| {
      return false, false, owned;
    }
    if rec.updated < cutoff {
      return true, false, owned;
    }
    ghost var m := nv.Model();
    BuildingReady(sc, nv, owned);
    var ids, extras, allInBase;
    ids, extras, owned', allInBase := Resolve(sc, nv.base.dicts, nv.extras, owned, rec.dims);
    nv.extras := extras;
    if ids.None? {
      return false, false, owned';
    }
    assert nv.Model() == m.(extras := Entries(extras));
    ExtrasGrow(sc, m, Entries(extras));
    ok := true;
    var row := Row(ids.value, rec.mets, rec.updated, ExpireMilli(rec.expireAt));
    dropped := UpsertRow(sc, nv, row, allInBase, blocked);
  }

  // The copied view denotes what v denotes; nothing is owned yet.
  lemma StartBuilding(sc: Schema, v: View, w: View, owned: seq<bool>)
    requires v.Valid(sc) && w.base == v.base && w.extras == v.extras && w.delta.Model() == v.delta.Model()
    requires w.overridden == if v.overridden == [] && |v.base.rows| > 0 then Zeros(|v.base.rows|) else v.overridden
    requires |owned| == |sc.dims| && forall d :: 0 <= d < |owned| ==> !owned[d]
    ensures Building(sc, w, owned) && OwnedDicts(w.extras, owned) == {}
    ensures w.Contents() == v.Contents()
  {
    hide SnapOK, DictsOK, RowsIn, DeltaOK, Bits.Bit;
    var (m, m') := (v.Model(), w.Model());
    assert m' == m.(overridden := w.overridden);
    assert forall r: nat :: r < |v.base.rows| ==> BitGet(w.overridden, r) == BitGet(v.overridden, r);
  }

  lemma {:induction false} BadStays(sc: Schema, m: Contents, recs: seq<Record>, i: nat, cutoff: int, blocked: bool)
    requires i <= |recs| && ApplyAll(sc, m, recs[..i], cutoff, blocked).None?
    ensures ApplyAll(sc, m, recs, cutoff, blocked).None?
    decreases |recs|
  {
    if i == |recs| {
      assert recs[..i] == recs;
    } else {
      assert recs[..|recs| - 1][..i] == recs[..i];
      BadStays(sc, m, recs[..|recs| - 1], i, cutoff, blocked);
    }
  }

  lemma FoldStart(sc: Schema, m: Contents, recs: seq<Record>, cutoff: int, blocked: bool)
    ensures ApplyAll(sc, m, recs[..0], cutoff, blocked) == Some(m) && Dropped(sc, m, recs[..0], cutoff, blocked) == 0
  {
  }

  // One more record of the batch.
  lemma FoldStep(sc: Schema, m: Contents, recs: seq<Record>, i: nat, cutoff: int, blocked: bool)
    requires i < |recs| && ApplyAll(sc, m, recs[..i], cutoff, blocked).Some?
    ensures var cur := ApplyAll(sc, m, recs[..i], cutoff, blocked).value;
            var (next, n) := (ApplyAll(sc, m, recs[..i + 1], cutoff, blocked),
              Dropped(sc, m, recs[..i], cutoff, blocked));
            match Read(sc, recs[i], cutoff)
            case Bad => ApplyAll(sc, m, recs, cutoff, blocked).None?
            case Skip => next == Some(cur) && Dropped(sc, m, recs[..i + 1], cutoff, blocked) == n
            case Use(t, e) =>
              next == Some(Oracle.Upsert(cur, t, e, blocked))
              && Dropped(sc, m, recs[..i + 1], cutoff, blocked) == n + (if blocked && t !in cur then 1 else 0)
  {
    assert recs[..i + 1][..i] == recs[..i];
    assert recs[..i + 1][i] == recs[i];
    if Read(sc, recs[i], cutoff) == Bad {
      BadStays(sc, m, recs, i + 1, cutoff, blocked);
    }
  }

  // Upserts recs behind a copied delta and returns the view over it; null when a record is bad. The
  // method modifies nothing: v, its delta and every dictionary it shares stay as they were.
  method ApplyDelta(sc: Schema, v: View, recs: seq<Record>, cutoff: int, blocked: bool)
    returns (nv: View?, dropped: nat)
    requires v.Valid(sc)
    ensures nv == null <==> ApplyAll(sc, v.Contents(), recs, cutoff, blocked).None?
    ensures nv != null ==>
              fresh(nv) && nv.Valid(sc) && nv.base == v.base
              && Some(nv.Contents()) == ApplyAll(sc, v.Contents(), recs, cutoff, blocked)
              && dropped == Dropped(sc, v.Contents(), recs, cutoff, blocked)
  {
    hide View.Valid, View.Model, Building, Ready, ApplyAll, Dropped, Read, Abs, Oracle.Upsert, Handover, Zeros;
    var w := new View.CopyOf(v);
    dropped := 0;
    var owned := seq(|sc.dims|, (_: nat) => false);
    ghost var before := v.Contents();
    StartBuilding(sc, v, w, owned);
    FoldStart(sc, before, recs, cutoff, blocked);
    BuildingReady(sc, w, owned);
    for i := 0 to |recs|
      invariant fresh(w) && fresh(w.delta) && w.base == v.base
      invariant Building(sc, w, owned) && |owned| == |w.extras| == |sc.dims|
      invariant forall d :: 0 <= d < |sc.dims| && owned[d] ==> fresh(w.extras[d])
      invariant ApplyAll(sc, before, recs[..i], cutoff, blocked) == Some(w.Contents())
      invariant dropped == Dropped(sc, before, recs[..i], cutoff, blocked)
    {
      FoldStep(sc, before, recs, i, cutoff, blocked);
      ghost var extras0, owned0 := w.extras, owned;
      StartHandover(extras0, owned0);
      var ok, over;
      ok, over, owned := ApplyRecord(sc, w, recs[i], owned, cutoff, blocked);
      if !ok {
        return null, dropped;
      }
      BuildingReady(sc, w, owned);
      HandoverTrans(extras0, owned0, extras0, owned0, w.extras, owned);
      if over {
        dropped := dropped + 1;
      }
    }
    assert recs[..|recs|] == recs;
    BuildingValid(sc, w, owned);
    nv := w;
  }
}
