// The rows a view makes visible: base rows not shadowed, and delta rows. Together
// they are exactly the entries of the map the view denotes, each once.
module Live {
  import opened Table
  import opened Bitmap
  import opened Upsert

  datatype Src = B(r: nat) | D(r: nat)

  predicate IsLive(v: ViewV, s: Src) {
    match s
    case B(r) => r < |v.base.rows| && !BitGet(v.overridden, r)
    case D(r) => r < |v.delta.rows|
  }

  function RowOf(v: ViewV, s: Src): Row
    requires IsLive(v, s)
  {
    match s
    case B(r) => v.base.rows[r]
    case D(r) => v.delta.rows[r]
  }

  lemma LiveInRange(sc: Schema, v: ViewV, s: Src)
    requires ViewOK(sc, v) && IsLive(v, s)
    ensures InRange(CombOf(v), RowOf(v, s).ids) && |RowOf(v, s).mets| == |sc.metrics|
  {
    BaseInComb(sc, v);
  }

  lemma LiveAbs(sc: Schema, v: ViewV, s: Src)
    requires ViewOK(sc, v) && IsLive(v, s)
    ensures Decode(CombOf(v), RowOf(v, s).ids) in Abs(v)
    ensures Abs(v)[Decode(CombOf(v), RowOf(v, s).ids)] == EntryOf(RowOf(v, s))
  {
    hide Keyed, Scalars, Decode, MapOf;
    LiveInRange(sc, v, s);
    AbsAt(sc, v, RowOf(v, s).ids);
  }

  lemma LiveFind(sc: Schema, v: ViewV, t: Tuple) returns (s: Src)
    requires ViewOK(sc, v) && t in Abs(v)
    ensures IsLive(v, s) && Decode(CombOf(v), RowOf(v, s).ids) == t
  {
    hide Keyed, Scalars, Decode, MapOf;
    var ds := CombOf(v);
    if t in MapOf(ds, v.delta.rows) {
      var r := MapOfKey(ds, v.delta.rows, t);
      s := D(r);
    } else {
      var r := MapOfKey(ds, v.base.rows, t);
      s := B(r);
      LiveShadow(sc, v, r);
    }
  }

  // A shadowed base row's tuple is found in delta.
  lemma LiveShadow(sc: Schema, v: ViewV, r: nat)
    requires ViewOK(sc, v) && r < |v.base.rows|
    ensures BitGet(v.overridden, r) ==> Decode(CombOf(v), v.base.rows[r].ids) in MapOf(CombOf(v), v.delta.rows)
  {
    hide Keyed, Scalars, Decode, MapOf, BitGet;
    if BitGet(v.overridden, r) {
      IndexedUnique(v.delta);
      MapOfLookup(sc, CombOf(v), v.delta.rows, v.delta.index[v.base.rows[r].ids]);
    }
  }

  lemma LiveDistinct(sc: Schema, v: ViewV, a: Src, b: Src)
    requires ViewOK(sc, v) && IsLive(v, a) && IsLive(v, b) && a != b
    ensures RowOf(v, a).ids != RowOf(v, b).ids
    ensures Decode(CombOf(v), RowOf(v, a).ids) != Decode(CombOf(v), RowOf(v, b).ids)
  {
    hide Keyed, Scalars, Decode, MapOf, BitGet;
    LiveInRange(sc, v, a);
    LiveInRange(sc, v, b);
    DecodeInjective(sc, CombOf(v), RowOf(v, a).ids, RowOf(v, b).ids);
  }
}
