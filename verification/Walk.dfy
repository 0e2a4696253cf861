// planExpand(): how deep the prefix may go, and the walk over every combination.
module Walk {
  import Bits
  import opened Table
  import Engine
  import opened Scratch
  import opened Odometer
  import opened Expand
  import opened Decimal
  import Reach

  // ---- Depth ----

  // Dimension d extends the prefix: pinned, or with candidates that cost less than a scan
  // and fit the slots left.
  predicate CoverJoins(c: Cover, d: nat, nRows: nat, room: Option<nat>) {
    d < |c.hasEq| && d < |c.candN|
    && (c.hasEq[d] || (c.candN[d] > 0 && !Reach.TooMany(Prod(Radix(c)[..d + 1]), nRows, room)))
  }

  // k is the first dimension that does not.
  ghost predicate DepthIs(sc: Schema, c: Cover, k: nat, nRows: nat, room: Option<nat>) {
    && k <= sc.indexDims && Shaped(sc, c)
    && (forall d :: 0 <= d < k ==> CoverJoins(c, d, nRows, room))
    && (k < sc.indexDims ==> !CoverJoins(c, k, nRows, room))
  }

  method Depth(sc: Schema, c: Cover, nRows: nat, room: nat) returns (k: nat, combos: nat)
    requires Shaped(sc, c) && room >= 1
    requires forall d :: 0 <= d < sc.indexDims && c.hasEq[d] ==> c.candN[d] == 0
    ensures DepthIs(sc, c, k, nRows, Some(room))
    ensures combos == Prod(Radix(c)[..k]) && 1 <= combos <= room
  {
    var logN := Bits.BitLen(nRows);
    combos, k := 1, 0;
    while k < sc.indexDims
      invariant k <= sc.indexDims && forall d :: 0 <= d < k ==> CoverJoins(c, d, nRows, Some(room))
      invariant combos == Prod(Radix(c)[..k]) && 1 <= combos <= room
      decreases sc.indexDims - k
    {
      RadixTake(c, k);
      if c.hasEq[k] {
        k := k + 1;
        continue;
      }
      var cand := c.candN[k];
      if cand == 0 {
        break; // nothing to search by
      }
      var n := combos * cand;
      if n * logN > nRows || n > room {
        break; // dearer than a scan, or short of slots
      }
      MulGrows(combos, cand);
      combos, k := n, k + 1;
    }
  }

  lemma RadixTake(c: Cover, k: nat)
    requires k < |c.candN|
    ensures Prod(Radix(c)[..k + 1]) == Prod(Radix(c)[..k]) * Radix(c)[k]
    ensures forall d :: 0 <= d < |Radix(c)| ==> Radix(c)[d] >= 1
  {
    assert Radix(c)[..k + 1][..k] == Radix(c)[..k];
  }

  // ---- The walk ----

  // Rows carrying the prefix are covered and lie within the hull.
  ghost predicate Done(rows: seq<Row>, pre: seq<nat>, ivs: seq<Iv>, lo: nat, hi: nat) {
    forall r: nat :: r < |rows| && HasPrefix(rows[r].ids, pre) ==> CoverRow(ivs, r) && lo <= r < hi
  }

  // Every reading numbered below n is done.
  ghost predicate Walked(rows: seq<Row>, c: Cover, pool: seq<nat>, radix: seq<nat>, n: nat, ivs: seq<Iv>, lo: nat,
          hi: nat) {
    forall w :: InBox(radix, w) && Rank(radix, w) < n ==> Done(rows, PrefixAt(c, pool, w), ivs, lo, hi)
  }

  lemma DoneGrows(rows: seq<Row>, pre: seq<nat>, ivs: seq<Iv>, lo: nat, hi: nat, ivs': seq<Iv>, lo': nat, hi': nat)
    requires Done(rows, pre, ivs, lo, hi) && ivs <= ivs' && (hi == 0 || (lo' <= lo && hi <= hi'))
    ensures Done(rows, pre, ivs', lo', hi')
  {
    forall r: nat | r < |rows| && HasPrefix(rows[r].ids, pre) ensures CoverRow(ivs', r) && lo' <= r < hi' {
      CoverGrows(ivs, ivs', r);
    }
  }

  // The reading idx has just been answered by [l, h).
  lemma WalkStep(rows: seq<Row>, c: Cover, pool: seq<nat>, radix: seq<nat>, idx: seq<nat>,
                 ivs: seq<Iv>, lo: nat, hi: nat, l: nat, h: nat, ivs': seq<Iv>, lo': nat, hi': nat)
    requires InBox(radix, idx) && Walked(rows, c, pool, radix, Rank(radix, idx), ivs, lo, hi)
    requires forall r: nat :: r < |rows| ==> (HasPrefix(rows[r].ids, PrefixAt(c, pool, idx)) <==> l <= r < h)
    requires ivs <= ivs' && (hi == 0 || (lo' <= lo && hi <= hi'))
    requires l < h ==> lo' <= l && h <= hi' && |ivs'| > 0 && ivs'[|ivs'| - 1] == Iv(l, h)
    ensures Walked(rows, c, pool, radix, Rank(radix, idx) + 1, ivs', lo', hi')
  {
    hide Done, PrefixAt, HasPrefix;
    forall w | InBox(radix, w) && Rank(radix, w) < Rank(radix, idx) + 1
      ensures Done(rows, PrefixAt(c, pool, w), ivs', lo', hi')
    {
      if Rank(radix, w) < Rank(radix, idx) {
        DoneGrows(rows, PrefixAt(c, pool, w), ivs, lo, hi, ivs', lo', hi');
      } else {
        RankInjective(radix, w, idx);
        DoneNow(rows, PrefixAt(c, pool, idx), l, h, ivs', lo', hi');
      }
    }
  }

  lemma DoneNow(rows: seq<Row>, pre: seq<nat>, l: nat, h: nat, ivs: seq<Iv>, lo: nat, hi: nat)
    requires forall r: nat :: r < |rows| ==> (HasPrefix(rows[r].ids, pre) <==> l <= r < h)
    requires l < h ==> lo <= l && h <= hi && |ivs| > 0 && ivs[|ivs| - 1] == Iv(l, h)
    ensures Done(rows, pre, ivs, lo, hi)
  {
    forall r: nat | r < |rows| && HasPrefix(rows[r].ids, pre) ensures CoverRow(ivs, r) && lo <= r < hi {
      assert ivs[|ivs| - 1].lo <= r < ivs[|ivs| - 1].hi;
    }
  }

  // No interval takes in a row outside the cover.
  ghost predicate Tight(rows: seq<Row>, c: Cover, pool: seq<nat>, k: nat, ivs: seq<Iv>) {
    forall i, r: nat :: 0 <= i < |ivs| && ivs[i].lo <= r < ivs[i].hi ==> Within(rows, c, pool, k, r)
  }

  lemma PrefixWithin(sc: Schema, rows: seq<Row>, c: Cover, pool: seq<nat>, k: nat, idx: seq<nat>, r: nat)
    requires Shaped(sc, c) && k <= sc.indexDims && InBox(Radix(c)[..k], idx) && r < |rows|
    requires forall d :: 0 <= d < sc.indexDims && c.hasEq[d] ==> c.candN[d] == 0
    requires HasPrefix(rows[r].ids, PrefixAt(c, pool, idx))
    ensures Within(rows, c, pool, k, r)
  {
    forall d: nat | d < k
      ensures c.hasEq[d] ==> RowId(rows, r, d) == c.eqID[d]
      ensures c.candN[d] > 0 ==> HasCand(c, pool, d, RowId(rows, r, d))
    {
      assert rows[r].ids[..k][d] == PrefixAt(c, pool, idx)[d];
      assert idx[d] < Radix(c)[..k][d];
    }
  }

  lemma TightPush(rows: seq<Row>, c: Cover, pool: seq<nat>, k: nat, ivs: seq<Iv>, x: Iv)
    requires Tight(rows, c, pool, k, ivs) && forall r: nat :: x.lo <= r < x.hi ==> Within(rows, c, pool, k, r)
    ensures Tight(rows, c, pool, k, ivs + [x])
  {
    hide Within;
  }

  lemma CandsShapes(sc: Schema, base: Dicts, c: Cover, pool: seq<nat>)
    requires CandsOK(sc, base, c, pool)
    ensures Shaped(sc, c) && forall d :: 0 <= d < sc.indexDims && c.hasEq[d] ==> c.candN[d] == 0
  {
  }

  lemma PrefixIsBase(sc: Schema, base: Dicts, c: Cover, pool: seq<nat>, k: nat, idx: seq<nat>)
    requires CandsOK(sc, base, c, pool) && 0 < k <= sc.indexDims && InBox(Radix(c)[..k], idx)
    requires forall d :: 0 <= d < k ==> c.hasEq[d] || c.candN[d] > 0
    ensures BasePrefix(sc, base, PrefixAt(c, pool, idx))
  {
    forall d | 0 <= d < k ensures PrefixAt(c, pool, idx)[d] < |base[d]| {
      if !c.hasEq[d] {
        assert idx[d] < Radix(c)[..k][d] == c.candN[d];
        assert CandAt(c, pool, d, idx[d]) < |base[d]|;
      }
    }
  }

  // Emits the interval of every combination, and the hull of all of them. Exactly combos
  // combinations are visited.
  method WalkAll(sc: Schema, base: Engine.Snapshot, c: Cover, k: nat, combos: nat, qs: QueryScratch)
    returns (lo: nat, hi: nat, ghost visited: nat)
    requires base.Valid(sc) && CandsOK(sc, base.Model().dicts, c, qs.inPool) && 0 < k <= sc.indexDims
    requires forall d :: 0 <= d < k ==> c.hasEq[d] || c.candN[d] > 0
    requires combos == Prod(Radix(c)[..k])
    requires qs.Valid() && |qs.ivs| + combos <= qs.caps.ivs && IvsOK(qs.ivs, |base.rows|)
    modifies qs`ivs
    ensures qs.Valid() && old(qs.ivs) <= qs.ivs && |qs.ivs| <= old(|qs.ivs|) + combos && IvsOK(qs.ivs, |base.rows|)
    ensures visited == combos && Counted(base.rows, c, qs.inPool, k, |qs.ivs| - old(|qs.ivs|))
    ensures var emitted := qs.ivs[old(|qs.ivs|)..];
            Walked(base.rows, c, qs.inPool, Radix(c)[..k], combos, emitted, lo, hi)
            && Tight(base.rows, c, qs.inPool, k, emitted) && IvsOK(emitted, |base.rows|)
  {
    hide Tight, Within, SnapOK, CandsOK, Done, Walked, Prod, Rank, PrefixAt, HasPrefix, Radix, IvsOK, BasePrefix,
      Carried;
    ghost var dicts := base.Model().dicts;
    RadixPins(sc, dicts, c, qs.inPool, k);
    ghost var radix := Radix(c)[..k];
    lo, hi, visited := 0, 0, 0;
    var idx := seq(k, (_: nat) => 0);
    ghost var emitted: seq<Iv> := [];
    ghost var hits: set<seq<nat>> := {};
    NoneHit(base.rows, c, qs.inPool, radix);
    StartWalk(base.rows, c, qs.inPool, radix, idx, k);
    CandsShapes(sc, dicts, c, qs.inPool);
    var more := true;
    while more
      invariant qs.Valid() && qs.ivs == old(qs.ivs) + emitted && |emitted| <= visited
      invariant IvsOK(qs.ivs, |base.rows|) && IvsOK(emitted, |base.rows|)
      invariant Walked(base.rows, c, qs.inPool, radix, visited, emitted, lo, hi)
      invariant Tight(base.rows, c, qs.inPool, k, emitted)
      invariant Carried(base.rows, c, qs.inPool, radix, visited, hits) && |hits| == |emitted|
      invariant more ==> InBox(radix, idx) && Rank(radix, idx) == visited < combos
      invariant !more ==> visited == combos
      decreases combos - visited, more
    {
      PrefixIsBase(sc, dicts, c, qs.inPool, k, idx);
      var l, h := RangeOf(sc, base, PrefixAt(c, qs.inPool, idx));
      ghost var (ivs0, lo0, hi0) := (emitted, lo, hi);
      if l < h {
        IvsPush(qs.ivs, |base.rows|, l, h);
        IvsPush(emitted, |base.rows|, l, h);
        forall r: nat | l <= r < h ensures Within(base.rows, c, qs.inPool, k, r) {
          PrefixWithin(sc, base.rows, c, qs.inPool, k, idx, r);
        }
        TightPush(base.rows, c, qs.inPool, k, emitted, Iv(l, h));
        qs.PushIv(Iv(l, h));
        emitted := emitted + [Iv(l, h)];
        if hi == 0 || l < lo {
          lo := l;
        }
        if h > hi {
          hi := h;
        }
      }
      HitStep(base.rows, c, qs.inPool, radix, idx, hits, l, h);
      hits := if l < h then hits + {idx} else hits;
      WalkStep(base.rows, c, qs.inPool, radix, idx, ivs0, lo0, hi0, l, h, emitted, lo, hi);
      visited := visited + 1;
      idx, more := Advance(Radix(c)[..k], c.hasEq[..k], idx);
      if more {
        RankBound(radix, idx);
      }
    }
    assert qs.ivs[old(|qs.ivs|)..] == emitted;
    CountedBy(base.rows, c, qs.inPool, k, combos, hits);
  }

  lemma CountedBy(rows: seq<Row>, c: Cover, pool: seq<nat>, k: nat, combos: nat, hits: set<seq<nat>>)
    requires k <= |c.candN| && combos == Prod(Radix(c)[..k]) && Carried(rows, c, pool, Radix(c)[..k], combos, hits)
    ensures Counted(rows, c, pool, k, |hits|)
  {
    hide Carried;
  }

  lemma NoneHit(rows: seq<Row>, c: Cover, pool: seq<nat>, radix: seq<nat>)
    ensures Carried(rows, c, pool, radix, 0, {})
  {
    hide Rank, PrefixAt;
  }

  // The reading idx has just been answered by [l, h).
  lemma HitStep(rows: seq<Row>, c: Cover, pool: seq<nat>, radix: seq<nat>, idx: seq<nat>, hits: set<seq<nat>>,
          l: nat, h: nat)
    requires InBox(radix, idx) && Carried(rows, c, pool, radix, Rank(radix, idx), hits) && h <= |rows|
    requires forall r: nat :: r < |rows| ==> (HasPrefix(rows[r].ids, PrefixAt(c, pool, idx)) <==> l <= r < h)
    ensures Carried(rows, c, pool, radix, Rank(radix, idx) + 1, if l < h then hits + {idx} else hits) && idx !in hits
  {
    hide Rank, PrefixAt, HasPrefix;
    assert RowHas(rows, PrefixAt(c, pool, idx)) <==> l < h by {
      if l < h {
        assert HasPrefix(rows[l].ids, PrefixAt(c, pool, idx));
      }
    }
    forall w | InBox(radix, w) && Rank(radix, w) == Rank(radix, idx) ensures w == idx {
      RankInjective(radix, w, idx);
    }
  }

  lemma IvsPush(ivs: seq<Iv>, n: nat, l: nat, h: nat)
    requires IvsOK(ivs, n) && l < h <= n
    ensures IvsOK(ivs + [Iv(l, h)], n)
  {
  }

  lemma StartWalk(rows: seq<Row>, c: Cover, pool: seq<nat>, radix: seq<nat>, idx: seq<nat>, k: nat)
    requires k <= |c.candN| && radix == Radix(c)[..k] && idx == seq(k, (_: nat) => 0)
    ensures InBox(radix, idx) && Rank(radix, idx) == 0 < Prod(radix)
    ensures Walked(rows, c, pool, radix, 0, [], 0, 0) && Tight(rows, c, pool, k, []) && IvsOK([], |rows|)
  {
    ZeroRank(radix, idx);
    ProdPositive(radix);
  }

  lemma RadixPins(sc: Schema, base: Dicts, c: Cover, pool: seq<nat>, k: nat)
    requires CandsOK(sc, base, c, pool) && k <= sc.indexDims
    ensures |c.hasEq| == |c.candN| == |Radix(c)| == sc.indexDims
    ensures forall d :: 0 <= d < k && c.hasEq[..k][d] ==> Radix(c)[..k][d] == 1
  {
  }

  // ---- Completeness ----

  // The reading that spells a row's own prefix.
  lemma {:induction false} PickReading(rows: seq<Row>, c: Cover, pool: seq<nat>, r: nat, k: nat) returns (w: seq<nat>)
    requires |c.hasEq| == |c.eqID| == |c.candN| && k <= |c.candN| && r < |rows| && k <= |rows[r].ids|
    requires forall d :: 0 <= d < k ==> c.hasEq[d] || c.candN[d] > 0
    requires forall d :: 0 <= d < |c.hasEq| && c.hasEq[d] ==> c.candN[d] == 0
    requires Within(rows, c, pool, k, r)
    ensures InBox(Radix(c)[..k], w) && PrefixAt(c, pool, w) == rows[r].ids[..k]
  {
    if k == 0 {
      w := [];
    } else {
      var w0 := PickReading(rows, c, pool, r, k - 1);
      var d := k - 1;
      assert RowId(rows, r, d) == rows[r].ids[d];
      var x := 0;
      if !c.hasEq[d] {
        assert HasCand(c, pool, d, rows[r].ids[d]);
        x :| 0 <= x < c.candN[d] && CandAt(c, pool, d, x) == rows[r].ids[d];
      }
      w := w0 + [x];
      assert CandAt(c, pool, d, x) == rows[r].ids[d];
      assert PrefixAt(c, pool, w) == PrefixAt(c, pool, w0) + [rows[r].ids[d]];
      assert Radix(c)[..k] == Radix(c)[..d] + [Radix(c)[d]];
      assert rows[r].ids[..k] == rows[r].ids[..d] + [rows[r].ids[d]];
    }
  }

  // Every row within the cover lies in an emitted interval, hence in the hull.
  lemma WalkCovers(rows: seq<Row>, c: Cover, pool: seq<nat>, k: nat, ivs: seq<Iv>, lo: nat, hi: nat, r: nat)
    requires |c.hasEq| == |c.eqID| == |c.candN| && k <= |c.candN| && r < |rows| && k <= |rows[r].ids|
    requires forall d :: 0 <= d < k ==> c.hasEq[d] || c.candN[d] > 0
    requires forall d :: 0 <= d < |c.hasEq| && c.hasEq[d] ==> c.candN[d] == 0
    requires Within(rows, c, pool, k, r) && Walked(rows, c, pool, Radix(c)[..k], Prod(Radix(c)[..k]), ivs, lo, hi)
    ensures CoverRow(ivs, r) && lo <= r < hi
  {
    hide CoverRow, Prod, Rank, Within;
    var w := PickReading(rows, c, pool, r, k);
    RankBound(Radix(c)[..k], w);
    assert Done(rows, PrefixAt(c, pool, w), ivs, lo, hi);
    assert HasPrefix(rows[r].ids, PrefixAt(c, pool, w));
  }

  // The walk takes in exactly the rows within the cover, and its hull holds them all.
  lemma WalkEmits(rows: seq<Row>, c: Cover, pool: seq<nat>, k: nat, ivs: seq<Iv>, lo: nat, hi: nat)
    requires |c.hasEq| == |c.eqID| == |c.candN| && k <= |c.candN| && IvsOK(ivs, |rows|)
    requires forall r :: 0 <= r < |rows| ==> k <= |rows[r].ids|
    requires forall d :: 0 <= d < k ==> c.hasEq[d] || c.candN[d] > 0
    requires forall d :: 0 <= d < |c.hasEq| && c.hasEq[d] ==> c.candN[d] == 0
    requires Walked(rows, c, pool, Radix(c)[..k], Prod(Radix(c)[..k]), ivs, lo, hi) && Tight(rows, c, pool, k, ivs)
    ensures Emits(rows, c, pool, k, ivs)
    ensures forall r: nat :: CoverRow(ivs, r) ==> lo <= r < hi
  {
    hide Within, Walked, Prod, Radix;
    forall r: nat ensures CoverRow(ivs, r) <==> r < |rows| && Within(rows, c, pool, k, r) {
      if r < |rows| && Within(rows, c, pool, k, r) {
        WalkCovers(rows, c, pool, k, ivs, lo, hi, r);
      }
    }
    forall r: nat | CoverRow(ivs, r) ensures lo <= r < hi {
      WalkCovers(rows, c, pool, k, ivs, lo, hi, r);
    }
  }
}
