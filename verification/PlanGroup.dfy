// plan(): one OR-group against a view.
module PlanGroup {
  import opened Decimal
  import opened Table
  import Dictionary
  import opened Engine
  import opened Oracle
  import opened Upsert
  import opened Scratch
  import opened Conditions
  import Resolve
  import opened Planner
  import Odometer
  import opened Expand
  import Walk
  import opened Reach
  import opened Pins

  // ---- The condition loop ----

  // Room for all of a group's conditions, counted from pools a.
  ghost predicate RoomFor(caps: Caps, a: PoolsV, g: Group) {
    && |a.condDims| + Count(g, Conds) <= caps.conds
    && |a.inWins| + Count(g, InConds) <= caps.inConds
    && |a.inPool| + Count(g, InVals) <= caps.inVals
    && |a.rWins| + Count(g, Ranges) <= caps.ranges
  }

  // b has grown from a by at most the group's conditions.
  ghost predicate UsedUp(a: PoolsV, b: PoolsV, g: Group) {
    && Grown(a, b)
    && |b.condDims| <= |a.condDims| + Count(g, Conds)
    && |b.inWins| <= |a.inWins| + Count(g, InConds)
    && |b.inPool| <= |a.inPool| + Count(g, InVals)
    && |b.rWins| <= |a.rWins| + Count(g, Ranges)
  }

  lemma {:induction false} CountGrows(g: Group, i: nat, kind: Kind)
    requires i <= |g|
    ensures Count(g[..i], kind) <= Count(g, kind)
    decreases |g|
  {
    if i == |g| {
      assert g[..i] == g;
    } else {
      assert g[..|g| - 1][..i] == g[..i];
      CountGrows(g[..|g| - 1], i, kind);
    }
  }

  lemma UsedStep(a: PoolsV, b: PoolsV, b': PoolsV, g: Group, i: nat)
    requires i < |g| && UsedUp(a, b, g[..i]) && Resolve.CondUsed(b, b', g[i])
    ensures UsedUp(a, b', g[..i + 1])
  {
    assert g[..i + 1][..i] == g[..i];
  }

  lemma RoomStep(caps: Caps, a: PoolsV, b: PoolsV, g: Group, i: nat)
    requires i < |g| && RoomFor(caps, a, g) && UsedUp(a, b, g[..i])
    ensures |b.condDims| + Weight(g[i], Conds) <= caps.conds && |b.inWins| + Weight(g[i], InConds) <= caps.inConds
    ensures |b.inPool| + Weight(g[i], InVals) <= caps.inVals && |b.rWins| + Weight(g[i], Ranges) <= caps.ranges
  {
    assert g[..i + 1][..i] == g[..i];
    CountGrows(g, i + 1, Conds);
    CountGrows(g, i + 1, InConds);
    CountGrows(g, i + 1, InVals);
    CountGrows(g, i + 1, Ranges);
  }

  lemma UsedAll(a: PoolsV, b: PoolsV, g: Group, i: nat)
    requires i <= |g| && UsedUp(a, b, g[..i])
    ensures UsedUp(a, b, g)
  {
    CountGrows(g, i, Conds);
    CountGrows(g, i, InConds);
    CountGrows(g, i, InVals);
    CountGrows(g, i, Ranges);
  }

  lemma {:induction false} JudgeStops(sc: Schema, comb: Dicts, g: Group, i: nat)
    requires |comb| == |sc.dims| && i <= |g| && JudgeGroup(sc, comb, g[..i]) != Usable
    ensures JudgeGroup(sc, comb, g) == JudgeGroup(sc, comb, g[..i])
    decreases |g|
  {
    if i == |g| {
      assert g[..i] == g;
    } else {
      assert g[..|g| - 1][..i] == g[..i];
      JudgeStops(sc, comb, g[..|g| - 1], i);
    }
  }

  lemma JudgeNext(sc: Schema, comb: Dicts, g: Group, i: nat)
    requires |comb| == |sc.dims| && i < |g| && JudgeGroup(sc, comb, g[..i]) == Usable
    ensures JudgeGroup(sc, comb, g[..i + 1]) == Judge(sc, comb, g[i])
    ensures Judge(sc, comb, g[i]) != Usable ==> JudgeGroup(sc, comb, g) == Judge(sc, comb, g[i])
  {
    assert g[..i + 1][..i] == g[..i];
    if Judge(sc, comb, g[i]) != Usable {
      JudgeStops(sc, comb, g, i + 1);
    }
  }

  // Whether every window of the segment reaches the base.
  ghost predicate Windows(base: Dicts, from: nat, pl: PoolsV, possible: bool) {
    from <= |pl.inWins| && (possible <==> forall i :: from <= i < |pl.inWins| ==> WinPossible(base, pl, i))
  }

  lemma WindowsStep(sc: Schema, comb: Dicts, base: Dicts, from: nat, c: Cond, a: PoolsV, b: PoolsV, possible: bool,
          anyBase: bool)
    requires |comb| == |sc.dims| && PoolsOK(a) && PoolsOK(b) && Resolve.Pushed(sc, comb, c, a, b)
    requires Windows(base, from, a, possible)
    requires c.range.None? && |c.ins| > 0 ==>
               (anyBase <==> Resolve.ReachesBaseAt(base, sc.DimIndex(c.dim), b.inPool[|a.inPool|..]))
    ensures Windows(base, from, b, if c.range.None? && |c.ins| > 0 then possible && anyBase else possible)
  {
    hide IdsOf, WinCounts, Resolve.ReachesBaseAt, ValueOf, Resolve.AscendingIds;
    forall i | from <= i < |a.inWins| ensures WinPossible(base, b, i) <==> WinPossible(base, a, i) {
      assert a.inWins[i] == b.inWins[i];
      assert WindowIds(b.inWins[i], b.inPool) == WindowIds(a.inWins[i], a.inPool);
    }
    if c.range.None? && |c.ins| > 0 {
      assert WindowIds(b.inWins[|a.inWins|], b.inPool) == b.inPool[|a.inPool|..];
      assert WinPossible(base, b, |a.inWins|) <==> anyBase;
    }
  }

  // Invariant of the condition loop after i conditions.
  ghost predicate Looped(sc: Schema, m: ViewV, g: Group, i: nat, st: Start, a: PoolsV, b: PoolsV, possible: bool) {
    && i <= |g| && |CombOf(m)| == |sc.dims|
    && st == Start(|a.condDims|, |a.inWins|, |a.rWins|)
    && UsedUp(a, b, g[..i])
    && JudgeGroup(sc, CombOf(m), g[..i]).Usable?
    && Means(sc, CombOf(m), g[..i], st, b)
    && SegPins(sc, CombOf(m), m.base.dicts, g[..i], st, b)
    && Windows(m.base.dicts, st.ins, b, possible)
  }

  lemma LoopStep(sc: Schema, m: ViewV, g: Group, i: nat, st: Start, a: PoolsV, b: PoolsV, b': PoolsV,
          possible: bool, anyBase: bool)
    requires ViewOK(sc, m) && i < |g| && Looped(sc, m, g, i, st, a, b, possible)
    requires Judge(sc, CombOf(m), g[i]).Usable? && Resolve.CondUsed(b, b', g[i])
               && Resolve.Pushed(sc, CombOf(m), g[i], b, b')
    requires g[i].range.None? && |g[i].ins| > 0 ==>
               (anyBase <==> Resolve.ReachesBaseAt(m.base.dicts, sc.DimIndex(g[i].dim), b'.inPool[|b.inPool|..]))
    ensures Looped(sc, m, g, i + 1, st, a, b',
                   if g[i].range.None? && |g[i].ins| > 0 then possible && anyBase else possible)
  {
    hide Judge, Resolve.Pushed, Means, Windows, ViewOK, UsedUp, Resolve.CondUsed, JudgeGroup, PoolsWellFormed, SegPins;
    var comb := CombOf(m);
    ViewDicts(sc, m);
    UsedStep(a, b, b', g, i);
    JudgeNext(sc, comb, g, i);
    MeansStep(sc, comb, g[..i], g[i], st, b, b');
    assert g[..i] + [g[i]] == g[..i + 1];
    MeansPools(sc, comb, g[..i], st, b);
    MeansPools(sc, comb, g[..i + 1], st, b');
    PinsStep(sc, comb, m.base.dicts, g[..i], g[i], st, b, b');
    WindowsStep(sc, comb, m.base.dicts, st.ins, g[i], b, b', possible, anyBase);
  }

  lemma ViewDicts(sc: Schema, m: ViewV)
    requires ViewOK(sc, m)
    ensures DictsOK(sc, CombOf(m)) && |CombOf(m)| == |m.base.dicts| == |sc.dims| && Extends(m.base.dicts, CombOf(m))
  {
  }

  lemma MeansPools(sc: Schema, comb: Dicts, g: Group, st: Start, pl: PoolsV)
    requires Means(sc, comb, g, st, pl)
    ensures PoolsOK(pl) && PoolsWellFormed(comb, pl) && StartsIn(st, pl)
  {
  }

  method PlanConds(sc: Schema, v: View, g: Group, qs: QueryScratch)
    returns (verdict: Verdict, st: Start, possible: bool)
    requires v.Valid(sc) && qs.Valid() && RoomFor(qs.caps, qs.Pools(), g)
    requires PoolsWellFormed(CombOf(v.Model()), qs.Pools())
    modifies qs`condDims, qs`condIDs, qs`inWins, qs`inPool, qs`rWins
    ensures qs.Valid() && UsedUp(old(qs.Pools()), qs.Pools(), g)
    ensures |CombOf(v.Model())| == |sc.dims| && verdict == JudgeGroup(sc, CombOf(v.Model()), g)
    ensures verdict.Usable? ==> Looped(sc, v.Model(), g, |g|, st, old(qs.Pools()), qs.Pools(), possible)
    ensures verdict.Absent? ==> PoolsWellFormed(CombOf(v.Model()), qs.Pools())
  {
    hide Judge, Resolve.Pushed, Looped, ViewOK, Snapshot.Valid, Dictionary.AllValid, UsedUp, Resolve.CondUsed,
      JudgeGroup,
      PoolsWellFormed,
      RoomFor, Resolve.ReachesBaseAt;
    ghost var (m, a) := (v.Model(), qs.Pools());
    ViewDicts(sc, m);
    st := Start(|qs.condDims|, |qs.inWins|, |qs.rWins|);
    possible := true;
    LoopStart(sc, m, g, st, a);
    for i := 0 to |g|
      invariant qs.Valid() && Looped(sc, m, g, i, st, a, qs.Pools(), possible)
    {
      ghost var b := qs.Pools();
      LoopFacts(sc, m, g, i, st, a, b, possible);
      RoomStep(qs.caps, a, b, g, i);
      var one, anyBase := Resolve.PlanCond(sc, v, g[i], qs);
      JudgeNext(sc, CombOf(m), g, i);
      if one != Usable {
        UsedStep(a, b, qs.Pools(), g, i);
        UsedAll(a, qs.Pools(), g, i + 1);
        return one, st, possible;
      }
      LoopStep(sc, m, g, i, st, a, b, qs.Pools(), possible, anyBase);
      if g[i].range.None? && |g[i].ins| > 0 && !anyBase {
        possible := false; // the base knows none of the listed values
      }
    }
    LoopFacts(sc, m, g, |g|, st, a, qs.Pools(), possible);
    assert g[..|g|] == g;
    verdict := Usable;
  }

  lemma LoopStart(sc: Schema, m: ViewV, g: Group, st: Start, a: PoolsV)
    requires ViewOK(sc, m) && PoolsWellFormed(CombOf(m), a) && st == Start(|a.condDims|, |a.inWins|, |a.rWins|)
    ensures Looped(sc, m, g, 0, st, a, a, true)
  {
    hide PoolsWellFormed;
    ViewDicts(sc, m);
    MeansStart(sc, CombOf(m), a);
    PinsStart(sc, CombOf(m), m.base.dicts, a);
    assert g[..0] == [];
  }

  lemma LoopFacts(sc: Schema, m: ViewV, g: Group, i: nat, st: Start, a: PoolsV, b: PoolsV, possible: bool)
    requires Looped(sc, m, g, i, st, a, b, possible)
    ensures i <= |g| && |CombOf(m)| == |sc.dims| && UsedUp(a, b, g[..i]) && JudgeGroup(sc, CombOf(m), g[..i]).Usable?
    ensures PoolsWellFormed(CombOf(m), b)
  {
  }

  // ---- The whole plan ----

  // What a finished plan promises about its group, given the intervals emitted so far.
  ghost predicate PlanGood(sc: Schema, m: ViewV, g: Group, p: GroupPlan, pl: PoolsV, ivs: seq<Iv>) {
    && Inside(p, pl)
    && (p.dead ==> forall ids :: InRange(CombOf(m), ids) ==> !Matches(sc, Decode(CombOf(m), ids), g))
    && (!p.dead ==> forall ids :: InRange(CombOf(m), ids) ==>
         (Matches(sc, Decode(CombOf(m), ids), g) <==> CondsHold(CombOf(m), p, pl, ids)))
    && (!p.dead && !p.basePossible ==> forall r: nat :: !BaseMatches(sc, m, g, r))
    && (!p.dead && !p.scan ==> forall r: nat :: BaseMatches(sc, m, g, r) ==> p.lo <= r < p.hi)
    && (forall r: nat :: BaseMatches(sc, m, g, r) ==> CoverRow(ivs, r))
  }

  // Checks the equality ids against the base dictionaries.
  method EqsPossible(sc: Schema, base: Snapshot, p: GroupPlan, pl: PoolsV, ghost comb: Dicts) returns (ok: bool)
    requires base.Valid(sc) && p.condOff + p.condN == |pl.condDims| == |pl.condIDs| && |comb| == |sc.dims|
    requires forall i :: 0 <= i < |pl.condDims| ==> EqOK(comb, pl, i)
    ensures ok <==> forall i :: p.condOff <= i < |pl.condDims| ==> EqPossible(base.Model().dicts, pl, i)
  {
    hide SnapOK;
    ok := true;
    for i := p.condOff to |pl.condDims|
      invariant ok <==> forall k :: p.condOff <= k < i ==> EqPossible(base.Model().dicts, pl, k)
    {
      assert EqOK(comb, pl, i);
      if pl.condIDs[i] >= |base.dicts[pl.condDims[i]].vals| {
        ok := false; // only the overlay knows the value
        assert !EqPossible(base.Model().dicts, pl, i);
      }
    }
  }

  // A full scan's single interval.
  method ScanAll(sc: Schema, base: Snapshot, qs: QueryScratch)
    requires base.Valid(sc) && qs.Valid() && |qs.ivs| < qs.caps.ivs && IvsOK(qs.ivs, |base.rows|)
    modifies qs`ivs
    ensures qs.Valid() && old(qs.ivs) <= qs.ivs && |qs.ivs| <= old(|qs.ivs|) + 1 && IvsOK(qs.ivs, |base.rows|)
    ensures |qs.ivs| - old(|qs.ivs|) == (if |base.rows| > 0 then 1 else 0)
    ensures forall r: nat :: CoverRow(qs.ivs[old(|qs.ivs|)..], r) <==> r < |base.rows|
  {
    var n := |base.rows|;
    if n > 0 {
      qs.PushIv(Iv(0, n));
      OneInterval(qs.ivs[old(|qs.ivs|)..], 0, n);
    }
  }

  lemma OneInterval(ivs: seq<Iv>, lo: nat, hi: nat)
    requires ivs == if lo < hi then [Iv(lo, hi)] else []
    ensures forall r: nat :: CoverRow(ivs, r) <==> lo <= r < hi
  {
    forall r: nat | lo <= r < hi ensures CoverRow(ivs, r) {
      assert ivs[0].lo <= r < ivs[0].hi;
    }
  }

  // The intervals just emitted are those of the cover to depth k, one for every reading
  // some row carries, and [lo, hi) holds them all. At depth 0 that is every row.
  ghost predicate Emitted(rows: seq<Row>, c: Cover, pool: seq<nat>, k: nat, ivs: seq<Iv>, lo: nat, hi: nat,
          scan: bool) {
    && Emits(rows, c, pool, k, ivs) && Counted(rows, c, pool, k, |ivs|) && (scan <==> k == 0)
    && (!scan ==> forall r: nat :: CoverRow(ivs, r) ==> lo <= r < hi)
  }

  lemma ScanEmits(rows: seq<Row>, c: Cover, pool: seq<nat>, ivs: seq<Iv>, lo: nat, hi: nat)
    requires forall r: nat :: CoverRow(ivs, r) <==> r < |rows|
    requires |ivs| == if |rows| > 0 then 1 else 0
    ensures Emitted(rows, c, pool, 0, ivs, lo, hi, true)
  {
    hide CoverRow, Counted;
    if |rows| > 0 {
      assert HasPrefix(rows[0].ids, []);
    }
    OneReading(rows, c, pool, 0, []);
  }

  // One reading in all: counted when some row carries it.
  lemma OneReading(rows: seq<Row>, c: Cover, pool: seq<nat>, k: nat, w: seq<nat>)
    requires k <= |c.candN| && |w| == k && (forall d :: 0 <= d < k ==> w[d] == 0 && c.candN[d] == 0)
    ensures Counted(rows, c, pool, k, if RowHas(rows, PrefixAt(c, pool, w)) then 1 else 0)
  {
    hide PrefixAt, RowHas;
    var radix := Radix(c)[..k];
    var hits := if RowHas(rows, PrefixAt(c, pool, w)) then {w} else {};
    forall u | Odometer.InBox(radix, u) ensures u == w {
    }
    assert Odometer.InBox(radix, w);
    Odometer.RankBound(radix, w);
    assert Carried(rows, c, pool, radix, Odometer.Prod(radix), hits);
  }

  // No IN: the equality prefix, if any, is one range.
  method PlanPrefix(sc: Schema, base: Snapshot, c: Cover, qs: QueryScratch, ghost room: Option<nat>)
    returns (lo: nat, hi: nat, scan: bool, ghost k: nat)
    requires base.Valid(sc) && CandsOK(sc, base.Model().dicts, c, qs.inPool)
    requires forall d :: 0 <= d < |c.candN| ==> c.candN[d] == 0
    requires qs.Valid() && |qs.ivs| < qs.caps.ivs && IvsOK(qs.ivs, |base.rows|)
    modifies qs`ivs
    ensures qs.Valid() && old(qs.ivs) <= qs.ivs && |qs.ivs| <= old(|qs.ivs|) + 1 && IvsOK(qs.ivs, |base.rows|)
    ensures Walk.DepthIs(sc, c, k, |base.rows|, room)
    ensures Emitted(base.rows, c, qs.inPool, k, qs.ivs[old(|qs.ivs|)..], lo, hi, scan)
  {
    hide SnapOK, CoverRow, HasPrefix, CandsOK, BasePrefix, Emitted, Emits, Within, TooMany, Radix, Odometer.Prod,
      Counted;
    CoverShape(sc, base.Model().dicts, c, qs.inPool);
    lo, hi, scan := 0, 0, false;
    var n := 0;
    while n < sc.indexDims && c.hasEq[n]
      invariant n <= sc.indexDims && forall d :: 0 <= d < n ==> c.hasEq[d]
    {
      n := n + 1;
    }
    k := n;
    if n == 0 {
      ScanAll(sc, base, qs); // no leading equality to search by
      ScanEmits(base.rows, c, qs.inPool, qs.ivs[old(|qs.ivs|)..], 0, 0);
      return 0, 0, true, 0;
    }
    EqIsBase(sc, base.Model().dicts, c, qs.inPool, n);
    lo, hi := RangeOf(sc, base, c.eqID[..n]);
    if lo < hi {
      Walk.IvsPush(qs.ivs, |base.rows|, lo, hi);
      qs.PushIv(Iv(lo, hi));
    }
    ghost var emitted := qs.ivs[old(|qs.ivs|)..];
    OneInterval(emitted, lo, hi);
    RowsWide(sc, base.Model());
    forall r: nat | r < |base.rows|
      ensures Within(base.rows, c, qs.inPool, k, r) <==> HasPrefix(base.rows[r].ids, c.eqID[..k])
    {
      EqWithin(base.rows, c, qs.inPool, k, r);
    }
    PinnedReading(base.rows, c, qs.inPool, k, lo, hi);
    RangeEmits(base.rows, c, qs.inPool, k, emitted, lo, hi);
  }

  lemma PinnedReading(rows: seq<Row>, c: Cover, pool: seq<nat>, k: nat, lo: nat, hi: nat)
    requires k <= |c.hasEq| == |c.eqID| == |c.candN| && hi <= |rows|
    requires (forall d :: 0 <= d < k ==> c.hasEq[d]) && forall d :: 0 <= d < |c.candN| ==> c.candN[d] == 0
    requires forall r: nat :: r < |rows| ==> (HasPrefix(rows[r].ids, c.eqID[..k]) <==> lo <= r < hi)
    ensures Counted(rows, c, pool, k, if lo < hi then 1 else 0)
  {
    hide HasPrefix, Counted;
    var w := seq(k, (_: nat) => 0);
    assert PrefixAt(c, pool, w) == c.eqID[..k];
    if lo < hi {
      assert HasPrefix(rows[lo].ids, c.eqID[..k]);
    }
    OneReading(rows, c, pool, k, w);
  }

  // Pinned dimensions alone: within the cover is carrying the prefix.
  lemma EqWithin(rows: seq<Row>, c: Cover, pool: seq<nat>, k: nat, r: nat)
    requires k <= |c.hasEq| == |c.eqID| == |c.candN| && r < |rows| && k <= |rows[r].ids|
    requires (forall d :: 0 <= d < k ==> c.hasEq[d]) && forall d :: 0 <= d < |c.candN| ==> c.candN[d] == 0
    ensures Within(rows, c, pool, k, r) <==> HasPrefix(rows[r].ids, c.eqID[..k])
  {
    var (ids, pre) := (rows[r].ids, c.eqID[..k]);
    if Within(rows, c, pool, k, r) {
      forall d: nat | d < k ensures ids[d] == pre[d] {
        assert RowId(rows, r, d) == ids[d];
      }
      assert ids[..k] == pre;
    }
    if HasPrefix(ids, pre) {
      forall d: nat | d < k ensures RowId(rows, r, d) == c.eqID[d] {
        assert ids[..k][d] == pre[d];
      }
    }
  }

  lemma RangeEmits(rows: seq<Row>, c: Cover, pool: seq<nat>, k: nat, ivs: seq<Iv>, lo: nat, hi: nat)
    requires k > 0 && hi <= |rows| && forall r: nat :: CoverRow(ivs, r) <==> lo <= r < hi
    requires Counted(rows, c, pool, k, |ivs|)
    requires forall r: nat :: r < |rows| ==> (Within(rows, c, pool, k, r) <==> lo <= r < hi)
    ensures Emitted(rows, c, pool, k, ivs, lo, hi, false)
  {
    hide CoverRow, Within, Counted;
  }

  lemma RowsWide(sc: Schema, s: SnapV)
    requires SnapOK(sc, s)
    ensures forall r :: 0 <= r < |s.rows| ==> sc.indexDims <= |s.rows[r].ids|
  {
  }

  lemma CoverShape(sc: Schema, base: Dicts, c: Cover, pool: seq<nat>)
    requires CandsOK(sc, base, c, pool)
    ensures Shaped(sc, c) && sc.indexDims <= |base|
    ensures forall d :: 0 <= d < sc.indexDims && c.hasEq[d] ==> c.candN[d] == 0
  {
  }

  lemma EqIsBase(sc: Schema, base: Dicts, c: Cover, pool: seq<nat>, k: nat)
    requires CandsOK(sc, base, c, pool) && 0 < k <= sc.indexDims && forall d :: 0 <= d < k ==> c.hasEq[d]
    ensures BasePrefix(sc, base, c.eqID[..k])
  {
  }

  // planExpand: index dimensions may be covered by IN candidates.
  method PlanExpand(sc: Schema, base: Snapshot, c: Cover, qs: QueryScratch, reserve: nat)
    returns (lo: nat, hi: nat, scan: bool, ghost k: nat)
    requires base.Valid(sc) && CandsOK(sc, base.Model().dicts, c, qs.inPool)
    requires qs.Valid() && |qs.ivs| + 1 + reserve <= qs.caps.ivs && IvsOK(qs.ivs, |base.rows|)
    modifies qs`ivs
    ensures qs.Valid() && old(qs.ivs) <= qs.ivs && |qs.ivs| + reserve <= qs.caps.ivs && IvsOK(qs.ivs, |base.rows|)
    ensures Walk.DepthIs(sc, c, k, |base.rows|, Some(qs.caps.ivs - old(|qs.ivs|) - reserve))
    ensures Emitted(base.rows, c, qs.inPool, k, qs.ivs[old(|qs.ivs|)..], lo, hi, scan)
    ensures |qs.ivs| <= old(|qs.ivs|) + Odometer.Prod(Radix(c)[..k])
  {
    hide SnapOK, CoverRow, CandsOK, Odometer.Prod, Radix, Walk.Walked, IvsOK, Walk.Tight, TooMany, Emits,
      Walk.CoverJoins, Emitted, Counted;
    CoverShape(sc, base.Model().dicts, c, qs.inPool);
    var room := qs.caps.ivs - |qs.ivs| - reserve;
    var depth, combos := Walk.Depth(sc, c, |base.rows|, room);
    k := depth;
    if depth == 0 {
      ScanAll(sc, base, qs); // expansion covers nothing
      ScanEmits(base.rows, c, qs.inPool, qs.ivs[old(|qs.ivs|)..], 0, 0);
      return 0, 0, true, 0;
    }
    DepthCovers(sc, c, k, |base.rows|, Some(room));
    RowsWide(sc, base.Model());
    ghost var visited;
    lo, hi, visited := Walk.WalkAll(sc, base, c, depth, combos, qs);
    scan := false;
    Walk.WalkEmits(base.rows, c, qs.inPool, k, qs.ivs[old(|qs.ivs|)..], lo, hi);
    HullEmits(base.rows, c, qs.inPool, k, qs.ivs[old(|qs.ivs|)..], lo, hi);
  }

  lemma DepthCovers(sc: Schema, c: Cover, k: nat, nRows: nat, room: Option<nat>)
    requires Walk.DepthIs(sc, c, k, nRows, room)
    ensures k <= |c.candN| && forall d :: 0 <= d < k ==> c.hasEq[d] || c.candN[d] > 0
  {
    forall d | 0 <= d < k ensures c.hasEq[d] || c.candN[d] > 0 {
      assert Walk.CoverJoins(c, d, nRows, room);
    }
  }

  lemma HullEmits(rows: seq<Row>, c: Cover, pool: seq<nat>, k: nat, ivs: seq<Iv>, lo: nat, hi: nat)
    requires k > 0 && Emits(rows, c, pool, k, ivs) && forall r: nat :: CoverRow(ivs, r) ==> lo <= r < hi
    requires Counted(rows, c, pool, k, |ivs|)
    ensures Emitted(rows, c, pool, k, ivs, lo, hi, false)
  {
    hide CoverRow, Emits, Counted;
  }

  // ---- plan() ----

  lemma GoodDead(sc: Schema, m: ViewV, g: Group, pl: PoolsV, ivs: seq<Iv>)
    requires ViewOK(sc, m) && JudgeGroup(sc, CombOf(m), g).Absent?
    requires |pl.condDims| == |pl.condIDs|
    ensures PlanGood(sc, m, g, BLANK.(dead := true), pl, ivs)
  {
    hide JudgeGroup, Matches, Decode, ViewOK;
    ViewDicts(sc, m);
    forall ids | InRange(CombOf(m), ids) ensures !Matches(sc, Decode(CombOf(m), ids), g) {
      DeadMatchesNothing(sc, CombOf(m), g, ids);
    }
    BaseRowsInRange(sc, m);
  }

  lemma BaseRowsInRange(sc: Schema, m: ViewV)
    requires ViewOK(sc, m)
    ensures forall r: nat :: r < |m.base.rows| ==> InRange(CombOf(m), m.base.rows[r].ids)
  {
    BaseInComb(sc, m);
  }

  // A segment that means the group becomes a good plan once its intervals cover it.
  lemma GoodSegment(sc: Schema, m: ViewV, g: Group, st: Start, pl: PoolsV, lo: nat, hi: nat, scan: bool,
          possible: bool, ivs: seq<Iv>)
    requires Expand.Resolved(sc, m, g, st, pl)
    requires possible ==> forall r: nat :: BaseMatches(sc, m, g, r) ==> CoverRow(ivs, r) && (!scan ==> lo <= r < hi)
    requires !possible ==> forall r: nat :: !BaseMatches(sc, m, g, r)
    ensures PlanGood(sc, m, g, Segment(st, pl).(lo := lo, hi := hi, scan := scan, basePossible := possible), pl, ivs)
  {
    hide ViewOK, Matches, CoverRow, BaseMatches, PoolsWellFormed, EqAt, InAt, RngAt, Decode, InRange;
    var (p, q) := (Segment(st, pl), Segment(st, pl).(lo := lo, hi := hi, scan := scan, basePossible := possible));
    MeansPools(sc, CombOf(m), g, st, pl);
    forall ids ensures CondsHold(CombOf(m), p, pl, ids) == CondsHold(CombOf(m), q, pl, ids) {
    }
    SegInside(CombOf(m), st, pl);
  }

  lemma SegInside(comb: Dicts, st: Start, pl: PoolsV)
    requires PoolsWellFormed(comb, pl) && StartsIn(st, pl)
    ensures Inside(Segment(st, pl), pl)
  {
  }

  // What planning one group needs of the workspace.
  ghost predicate PlanReady(sc: Schema, m: ViewV, g: Group, qs: QueryScratch, reserve: nat)
    reads qs
  {
    && qs.Valid() && RoomFor(qs.caps, qs.Pools(), g)
    && PoolsWellFormed(CombOf(m), qs.Pools())
    && |qs.ivs| + 1 + reserve <= qs.caps.ivs && IvsOK(qs.ivs, |m.base.rows|)
  }

  // A plan's new intervals: exactly the rows the query reaches in this much room, in as
  // many intervals as it has picks naming a row.
  ghost predicate Reached(sc: Schema, m: ViewV, g: Group, room: nat, ivs: seq<Iv>) {
    && SlotsTaken(sc, m, g, Some(room), |ivs|)
    && forall r: nat :: CoverRow(ivs, r) <==> GroupReaches(sc, m, g, Some(room), r)
  }

  // The intervals of a group whose conditions are resolved and possible in the base.
  method PlanIntervals(sc: Schema, v: View, ghost g: Group, st: Start, qs: QueryScratch, reserve: nat)
    returns (lo: nat, hi: nat, scan: bool)
    requires v.Valid(sc) && qs.Valid() && |qs.ivs| + 1 + reserve <= qs.caps.ivs && IvsOK(qs.ivs, |v.base.rows|)
    requires Expand.Resolved(sc, v.Model(), g, st, qs.Pools()) && Plannable(sc, v.Model(), g)
    requires SegPins(sc, CombOf(v.Model()), v.Model().base.dicts, g, st, qs.Pools())
    requires BasePossible(v.Model().base.dicts, Segment(st, qs.Pools()), qs.Pools())
    modifies qs`ivs
    ensures qs.Valid() && old(qs.ivs) <= qs.ivs && |qs.ivs| + reserve <= qs.caps.ivs && IvsOK(qs.ivs, |v.base.rows|)
    ensures |qs.ivs| <= old(|qs.ivs|) + InProduct(g)
    ensures Reached(sc, v.Model(), g, qs.caps.ivs - old(|qs.ivs|) - reserve, qs.ivs[old(|qs.ivs|)..])
    ensures !scan ==> forall r: nat :: CoverRow(qs.ivs[old(|qs.ivs|)..], r) ==> lo <= r < hi
  {
    hide ViewOK, Dictionary.AllValid, SnapOK, CoverRow, CandsOK, Odometer.Prod, Radix, WinOK, EqOK, EqFrom, CandsFrom,
      Means, IvsOK,
      BasePossible, SegPins, CoverIs, Walk.DepthIs, Emits, Plannable, Reached, EqsCovered, InProduct, EqNone,
      PoolsOK, Counted;
    ghost var m, comb, base := v.Model(), CombOf(v.Model()), v.Model().base.dicts;
    var pl := qs.Pools();
    var seg := Segment(st, pl);
    ghost var room := qs.caps.ivs - |qs.ivs| - reserve;
    SegmentWF(sc, m, g, st, pl);
    SegPools(sc, m, g, st, pl);
    ViewDicts(sc, m);
    ghost var k;
    var hasEq, eqID := EqCover(sc, seg, pl);
    EqLens(sc, seg, pl, hasEq, eqID);
    var zeros := seq(sc.indexDims, (_: nat) => 0);
    var c := Cover(hasEq, eqID, zeros, zeros);
    if seg.insN > 0 {
      WinsReady(base, comb, st, pl);
      c := CandCover(sc, v.base, seg, pl, hasEq, eqID, comb);
      CandsShape(base, seg, pl, c);
      CoverCands(sc, m, g, st, pl, c);
      CoverIsPins(sc, comb, base, g, st, pl, c);
      lo, hi, scan, k := PlanExpand(sc, v.base, c, qs, reserve);
      DepthCovers(sc, c, k, |v.base.rows|, Some(room));
      DepthBound(sc, c, k, |v.base.rows|, Some(room));
      CombosAre(sc, comb, base, g, c, pl.inPool, k);
      CombosBound(sc, base, g, k);
    } else {
      NoCands(base, seg, pl, c);
      CoverCands(sc, m, g, st, pl, c);
      CoverIsPins(sc, comb, base, g, st, pl, c);
      lo, hi, scan, k := PlanPrefix(sc, v.base, c, qs, Some(room));
    }
    assert v.Model() == m;
    ReachedBy(sc, m, g, c, pl.inPool, k, room, qs.ivs[old(|qs.ivs|)..]);
  }

  lemma EqLens(sc: Schema, p: GroupPlan, pl: PoolsV, hasEq: seq<bool>, eqID: seq<nat>)
    requires EqsCovered(sc, p, pl, p.condN, hasEq, eqID)
    ensures |hasEq| == |eqID| == sc.indexDims
  {
  }

  lemma DepthBound(sc: Schema, c: Cover, k: nat, nRows: nat, room: Option<nat>)
    requires Walk.DepthIs(sc, c, k, nRows, room)
    ensures k <= sc.indexDims
  {
  }

  // The cover to its depth is the query's prefix to its depth.
  lemma ReachedBy(sc: Schema, m: ViewV, g: Group, c: Cover, pool: seq<nat>, k: nat, room: nat, ivs: seq<Iv>)
    requires ViewOK(sc, m) && Plannable(sc, m, g) && CoverIs(sc, CombOf(m), m.base.dicts, g, c, pool)
    requires Walk.DepthIs(sc, c, k, |m.base.rows|, Some(room)) && Emits(m.base.rows, c, pool, k, ivs)
    requires Counted(m.base.rows, c, pool, k, |ivs|)
    ensures Reached(sc, m, g, room, ivs)
  {
    hide ViewOK, Plannable, CoverIs, Walk.DepthIs, Within, PrefixHolds, Decode, PrefixDepth, InRange, Counted, Spelled;
    var comb := CombOf(m);
    ViewDicts(sc, m);
    DepthAre(sc, comb, m.base.dicts, g, c, pool, k, |m.base.rows|, Some(room));
    DepthBound(sc, c, k, |m.base.rows|, Some(room));
    DepthCovers(sc, c, k, |m.base.rows|, Some(room));
    CountedAre(sc, m, g, c, pool, k, |ivs|);
    BaseRowsIn(sc, m);
    forall r: nat | r < |m.base.rows|
      ensures Within(m.base.rows, c, pool, k, r) <==> PrefixHolds(sc, g, Decode(comb, m.base.rows[r].ids), k)
    {
      WithinIsPrefix(sc, comb, m.base.dicts, g, c, pool, m.base.rows, k, r);
    }
  }

  lemma BaseRowsIn(sc: Schema, m: ViewV)
    requires ViewOK(sc, m)
    ensures forall r :: 0 <= r < |m.base.rows| ==> InRange(m.base.dicts, m.base.rows[r].ids)
  {
  }

  lemma NoCands(base: Dicts, p: GroupPlan, pl: PoolsV, c: Cover)
    requires |c.hasEq| == |c.eqID| == |c.candOff| == |c.candN| && forall d :: 0 <= d < |c.candN| ==> c.candN[d] == 0
    requires p.insN == 0
    ensures CandsFrom(base, p, pl, p.insN, c)
  {
  }

  lemma CandsShape(base: Dicts, p: GroupPlan, pl: PoolsV, c: Cover)
    requires CandsFrom(base, p, pl, p.insN, c)
    ensures |c.hasEq| == |c.eqID| == |c.candOff| == |c.candN|
  {
  }

  lemma SegPools(sc: Schema, m: ViewV, g: Group, st: Start, pl: PoolsV)
    requires Expand.Resolved(sc, m, g, st, pl)
    ensures |pl.condDims| == |pl.condIDs|
    ensures Segment(st, pl).condOff + Segment(st, pl).condN == |pl.condDims|
    ensures Segment(st, pl).insOff + Segment(st, pl).insN == |pl.inWins|
  {
  }

  lemma WinsReady(base: Dicts, comb: Dicts, st: Start, pl: PoolsV)
    requires StartsIn(st, pl) && PoolsWellFormed(comb, pl) && BasePossible(base, Segment(st, pl), pl)
    ensures forall i :: st.ins <= i < |pl.inWins| ==> WinOK(comb, pl, i) && WinPossible(base, pl, i)
  {
    hide WinOK, WinPossible, EqOK;
  }

  // Plans one group. The last reserve slots of the interval pool belong to later groups.
  method Plan(sc: Schema, v: View, g: Group, qs: QueryScratch, reserve: nat) returns (verdict: Verdict, p: GroupPlan)
    requires v.Valid(sc) && PlanReady(sc, v.Model(), g, qs, reserve)
    modifies qs`ivs, qs`condDims, qs`condIDs, qs`inWins, qs`inPool, qs`rWins
    ensures qs.Valid() && UsedUp(old(qs.Pools()), qs.Pools(), g)
    ensures |CombOf(v.Model())| == |sc.dims| && verdict == JudgeGroup(sc, CombOf(v.Model()), g)
    ensures !verdict.Invalid? ==>
              PoolsWellFormed(CombOf(v.Model()), qs.Pools()) && PlanGood(sc, v.Model(), g, p, qs.Pools(), qs.ivs)
    ensures old(qs.ivs) <= qs.ivs && |qs.ivs| + reserve <= qs.caps.ivs && IvsOK(qs.ivs, |v.base.rows|)
    ensures |qs.ivs| <= old(|qs.ivs|) + InProduct(g)
    ensures Reached(sc, v.Model(), g, qs.caps.ivs - old(|qs.ivs|) - reserve, qs.ivs[old(|qs.ivs|)..])
  {
    hide ViewOK, SnapOK, Dictionary.AllValid, CoverRow, BaseMatches, PoolsWellFormed, JudgeGroup, PlanGood, IvsOK,
      RoomFor,
      Looped, UsedUp, InProduct, Expand.Resolved, BasePossible, Plannable, Reached, SegPins;
    ghost var (m, a) := (v.Model(), qs.Pools());
    ghost var room := qs.caps.ivs - |qs.ivs| - reserve;
    p := BLANK;
    if |g| == 0 {
      EmptyGroup(sc, m, g, a);
      ScanAll(sc, v.base, qs); // nothing to match on: every row qualifies
      ReachedEmpty(sc, m, g, room, qs.ivs[old(|qs.ivs|)..]);
      AllCovered(old(qs.ivs), qs.ivs, |v.base.rows|);
      GoodEmpty(sc, m, g, a, qs.ivs);
      return Usable, BLANK.(scan := true);
    }
    var st, possible;
    verdict, st, possible := PlanConds(sc, v, g, qs);
    NothingReached(sc, m, g, room, qs.ivs[old(|qs.ivs|)..]);
    if verdict.Invalid? {
      return;
    }
    if verdict.Absent? {
      PoolsLen(CombOf(m), qs.Pools());
      GoodDead(sc, m, g, qs.Pools(), qs.ivs);
      return verdict, BLANK.(dead := true);
    }
    LoopDone(sc, m, g, st, a, qs.Pools(), possible);
    var seg := Segment(st, qs.Pools());
    var eqs := EqsPossible(sc, v.base, seg, qs.Pools(), CombOf(m));
    assert v.base.Model() == m.base;
    PossibleIff(m.base.dicts, st, qs.Pools(), possible, eqs);
    possible := possible && eqs;
    PlannableIff(sc, m, g, st, qs.Pools());
    var lo, hi, scan := 0, 0, false;
    if possible {
      lo, hi, scan := PlanIntervals(sc, v, g, st, qs, reserve);
      assert v.Model() == m;
      MatchesReached(sc, m, g, room, old(qs.ivs), qs.ivs, lo, hi, scan);
    } else {
      forall r: nat ensures !BaseMatches(sc, m, g, r) {
        ImpossibleMatchesNothing(sc, m, g, st, qs.Pools(), r);
      }
    }
    GoodSegment(sc, m, g, st, qs.Pools(), lo, hi, scan, possible, qs.ivs);
    p := seg.(lo := lo, hi := hi, scan := scan, basePossible := possible);
  }

  lemma AllCovered(a: seq<Iv>, b: seq<Iv>, n: nat)
    requires a <= b && forall r: nat :: CoverRow(b[|a|..], r) <==> r < n
    ensures forall r: nat :: r < n ==> CoverRow(b, r)
  {
    forall r: nat | r < n ensures CoverRow(b, r) {
      TailCovers(a, b, r);
    }
  }

  lemma TailCovers(a: seq<Iv>, b: seq<Iv>, r: nat)
    requires a <= b && CoverRow(b[|a|..], r)
    ensures CoverRow(b, r)
  {
    var i :| 0 <= i < |b| - |a| && b[|a|..][i].lo <= r < b[|a|..][i].hi;
    assert b[|a| + i] == b[|a|..][i];
  }

  // The group without conditions reaches every row, at depth 0.
  lemma ReachedEmpty(sc: Schema, m: ViewV, g: Group, room: nat, ivs: seq<Iv>)
    requires |g| == 0 && ViewOK(sc, m) && forall r: nat :: CoverRow(ivs, r) <==> r < |m.base.rows|
    requires |ivs| == if |m.base.rows| > 0 then 1 else 0
    ensures Reached(sc, m, g, room, ivs)
  {
    hide CoverRow, ViewOK, Decode, PrefixDepth;
    ViewDicts(sc, m);
    assert forall d: nat :: PinOf(sc, g, d) == Open;
    var k := PrefixDepth(sc, m.base.dicts, g, |m.base.rows|, Some(room));
    assert k == 0 by {
      assert !Joins(sc, m.base.dicts, g, 0, |m.base.rows|, Some(room));
    }
    var picks: set<seq<nat>> := if |m.base.rows| > 0 then {[]} else {};
    if |m.base.rows| > 0 {
      assert Spells(sc, g, [], Decode(CombOf(m), m.base.rows[0].ids));
    }
    assert Spelled(sc, m, g, k, picks) && |picks| == |ivs|;
  }

  // A group that is not usable reaches nothing.
  lemma NothingReached(sc: Schema, m: ViewV, g: Group, room: nat, ivs: seq<Iv>)
    requires ivs == []
    ensures !Plannable(sc, m, g) ==> Reached(sc, m, g, room, ivs)
    ensures |CombOf(m)| == |sc.dims| && JudgeGroup(sc, CombOf(m), g) != Usable ==> !Plannable(sc, m, g)
  {
    hide JudgeGroup, InBase, PrefixHolds, PrefixDepth, Spelled;
  }

  lemma PlannableIff(sc: Schema, m: ViewV, g: Group, st: Start, pl: PoolsV)
    requires SegPins(sc, CombOf(m), m.base.dicts, g, st, pl) && JudgeGroup(sc, CombOf(m), g).Usable?
    ensures Plannable(sc, m, g) <==> BasePossible(m.base.dicts, Segment(st, pl), pl)
  {
    hide JudgeGroup, InBase, BasePossible, PinIn;
  }

  // Matching rows are reached, hence covered and within the hull.
  lemma MatchesReached(sc: Schema, m: ViewV, g: Group, room: nat, a: seq<Iv>, b: seq<Iv>, lo: nat, hi: nat, scan: bool)
    requires ViewOK(sc, m) && Plannable(sc, m, g) && a <= b && Reached(sc, m, g, room, b[|a|..])
    requires !scan ==> forall r: nat :: CoverRow(b[|a|..], r) ==> lo <= r < hi
    ensures forall r: nat :: BaseMatches(sc, m, g, r) ==> CoverRow(b, r) && (!scan ==> lo <= r < hi)
  {
    hide ViewOK, Plannable, CoverRow, GroupReaches, Matches, Decode;
    forall r: nat | BaseMatches(sc, m, g, r) ensures CoverRow(b, r) && (!scan ==> lo <= r < hi) {
      MatchIsReached(sc, m, g, Some(room), r);
      TailCovers(a, b, r);
    }
  }

  lemma PoolsLen(comb: Dicts, pl: PoolsV)
    requires PoolsWellFormed(comb, pl)
    ensures |pl.condDims| == |pl.condIDs|
  {
  }

  lemma EmptyGroup(sc: Schema, m: ViewV, g: Group, a: PoolsV)
    requires |g| == 0 && ViewOK(sc, m)
    ensures |CombOf(m)| == |sc.dims| && UsedUp(a, a, g) && JudgeGroup(sc, CombOf(m), g).Usable? && InProduct(g) == 1
  {
    ViewDicts(sc, m);
  }

  lemma GoodEmpty(sc: Schema, m: ViewV, g: Group, pl: PoolsV, ivs: seq<Iv>)
    requires |g| == 0 && PoolsWellFormed(CombOf(m), pl) && forall r: nat :: r < |m.base.rows| ==> CoverRow(ivs, r)
    ensures PlanGood(sc, m, g, BLANK.(scan := true), pl, ivs)
  {
    hide CoverRow;
  }

  lemma LoopDone(sc: Schema, m: ViewV, g: Group, st: Start, a: PoolsV, b: PoolsV, possible: bool)
    requires ViewOK(sc, m) && Looped(sc, m, g, |g|, st, a, b, possible)
    ensures Expand.Resolved(sc, m, g, st, b) && StartsIn(st, b) && PoolsWellFormed(CombOf(m), b)
    ensures SegPins(sc, CombOf(m), m.base.dicts, g, st, b) && JudgeGroup(sc, CombOf(m), g).Usable?
    ensures possible <==> forall i :: st.ins <= i < |b.inWins| ==> WinPossible(m.base.dicts, b, i)
    ensures Segment(st, b).condOff + Segment(st, b).condN == |b.condDims| == |b.condIDs| && |CombOf(m)| == |sc.dims|
    ensures forall i :: 0 <= i < |b.condDims| ==> EqOK(CombOf(m), b, i)
  {
    hide WinPossible, EqOK, WinOK, JudgeGroup, ViewOK, CondsHold, SegPins;
    assert g[..|g|] == g;
  }

  lemma PossibleIff(base: Dicts, st: Start, pl: PoolsV, wins: bool, eqs: bool)
    requires StartsIn(st, pl)
    requires wins <==> forall i :: st.ins <= i < |pl.inWins| ==> WinPossible(base, pl, i)
    requires eqs <==> forall i :: st.cond <= i < |pl.condDims| ==> EqPossible(base, pl, i)
    ensures BasePossible(base, Segment(st, pl), pl) <==> wins && eqs
  {
    hide WinPossible, EqPossible;
  }
}
