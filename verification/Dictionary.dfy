// Interning dictionaries: value -> dense id and back. A dictionary is extended in
// place only while one writer owns it; once published it is shared and never changed.
module Dictionary {
  import opened Decimal
  import opened Table
  import Oracle

  class Dict {
    const numeric: bool
    var ids: map<Value, nat>
    var vals: seq<Value>

    // ids is the inverse of vals: every entry once, numbered densely in insertion order.
    ghost predicate Valid()
      reads this
    {
      && DictOK(vals, numeric)
      && (forall i :: 0 <= i < |vals| ==> vals[i] in ids && ids[vals[i]] == i)
      && (forall v :: v in ids ==> ids[v] < |vals| && vals[ids[v]] == v)
    }

    constructor (numeric: bool)
      ensures Valid() && this.numeric == numeric && vals == []
    {
      this.numeric := numeric;
      ids := map[];
      vals := [];
    }

    method GetOrAdd(v: Value) returns (id: nat)
      requires Valid() && KindOK(v, numeric)
      modifies this
      ensures Valid()
      ensures vals == if v in old(vals) then old(vals) else old(vals) + [v]
      ensures id < |vals| && vals[id] == v
    {
      if v in ids {
        return ids[v];
      }
      id := |vals|;
      ids := ids[v := id];
      vals := vals + [v];
    }

    // Copies src's entry id.
    method AddFrom(src: Dict, id: nat) returns (r: nat)
      requires Valid() && src.Valid() && src.numeric == numeric && id < |src.vals| && src != this
      modifies this
      ensures Valid()
      ensures vals == if src.vals[id] in old(vals) then old(vals) else old(vals) + [src.vals[id]]
      ensures r < |vals| && vals[r] == src.vals[id]
    {
      assert KindOK(src.vals[id], numeric);
      r := GetOrAdd(src.vals[id]);
    }

    function Lookup(v: Value): (r: Option<nat>)
      requires Valid()
      reads this
      ensures r.Some? ==> r.value < |vals| && vals[r.value] == v
      ensures r.None? ==> v !in vals
    {
      if v in ids then Some(ids[v]) else None
    }

    function Spelling(id: nat): Text
      requires id < |vals|
      reads this
    {
      Oracle.Spell(vals[id])
    }

    method Clone() returns (c: Dict)
      requires Valid()
      ensures fresh(c) && c.Valid() && c.numeric == numeric && c.vals == vals
    {
      c := new Dict(numeric);
      c.ids := ids;
      c.vals := vals;
    }
  }

  // The entries of a row of dictionaries.
  function Entries(ds: seq<Dict>): Dicts
    reads ds
  {
    seq(|ds|, (d: nat) requires d < |ds| reads ds => ds[d].vals)
  }

  ghost predicate AllValid(sc: Schema, ds: seq<Dict>)
    reads ds
  {
    |ds| == |sc.dims| && forall d :: 0 <= d < |ds| ==> ds[d].Valid() && ds[d].numeric == sc.dims[d].isInt
  }

  lemma EntriesOK(sc: Schema, ds: seq<Dict>)
    requires AllValid(sc, ds)
    ensures DictsOK(sc, Entries(ds))
  {
  }

  // One empty dictionary per dimension.
  method NewDicts(sc: Schema) returns (ds: seq<Dict>)
    ensures AllValid(sc, ds) && fresh(ds)
    ensures forall d :: 0 <= d < |ds| ==> ds[d].vals == []
    ensures forall i, j :: 0 <= i < j < |ds| ==> ds[i] != ds[j]
  {
    ds := [];
    for d := 0 to |sc.dims|
      invariant |ds| == d && fresh(ds)
      invariant forall i :: 0 <= i < d ==> ds[i].Valid() && ds[i].numeric == sc.dims[i].isInt && ds[i].vals == []
      invariant forall i, j :: 0 <= i < j < d ==> ds[i] != ds[j]
    {
      var dict := new Dict(sc.dims[d].isInt);
      ds := ds + [dict];
    }
  }
}
