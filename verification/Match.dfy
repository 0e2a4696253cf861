// Row tests: does a stored row satisfy a group, according to the finished plans?
module Match {
  import opened Table
  import Dictionary
  import opened Engine
  import opened Oracle
  import opened Upsert
  import opened Scratch
  import opened Conditions
  import Resolve
  import opened Planner
  import Expand
  import PlanGroup

  const IN_LINEAR_MAX := 16

  // One IN window: a linear probe when short, a binary search above that.
  method MatchOneIn(w: InWindow, pool: seq<nat>, id: nat) returns (b: bool)
    requires w.off + w.n <= |pool| && Resolve.AscendingIds(WindowIds(w, pool))
    ensures b <==> id in WindowIds(w, pool)
  {
    var seg := pool[w.off..w.off + w.n];
    if |seg| <= IN_LINEAR_MAX {
      for i := 0 to |seg|
        invariant id !in seg[..i]
      {
        if seg[i] == id {
          return true;
        }
      }
      assert seg[..|seg|] == seg;
      return false;
    }
    var k := LowerBound(seg, id);
    b := k < |seg| && seg[k] == id;
  }

  method MatchIns(p: GroupPlan, pl: PoolsV, ghost comb: Dicts, ids: seq<nat>) returns (b: bool)
    requires p.insOff + p.insN <= |pl.inWins| && |ids| == |comb|
    requires forall i :: 0 <= i < |pl.inWins| ==> WinOK(comb, pl, i)
    ensures b <==> InHold(p, pl, ids)
  {
    for i := p.insOff to p.insOff + p.insN
      invariant forall k :: p.insOff <= k < i ==> InAt(pl, k, ids)
    {
      assert WinOK(comb, pl, i);
      var ok := MatchOneIn(pl.inWins[i], pl.inPool, ids[pl.inWins[i].dim]);
      if !ok {
        assert !InAt(pl, i, ids);
        return false;
      }
    }
    b := true;
  }

  // The integer a combined id stands for.
  method NumberOf(sc: Schema, v: View, d: nat, id: nat) returns (n: int)
    requires v.Valid(sc) && d < |sc.dims| && id < |CombOf(v.Model())[d]| && CombOf(v.Model())[d][id].Num?
    ensures n == NumAt(CombOf(v.Model()), d, id)
  {
    hide SnapOK, DeltaOK, Shadowing, RowsIn, DictsOK, Dictionary.Dict.Valid;
    Resolve.CombSplit(sc, v, d);
    var len := |v.base.dicts[d].vals|;
    var val := if id >= len then v.extras[d].vals[id - len] else v.base.dicts[d].vals[id];
    n := val.n;
  }

  method MatchRanges(sc: Schema, v: View, p: GroupPlan, pl: PoolsV, ids: seq<nat>) returns (b: bool)
    requires v.Valid(sc) && p.rngOff + p.rngN <= |pl.rWins| && InRange(CombOf(v.Model()), ids)
               && |CombOf(v.Model())| == |sc.dims|
    requires forall i :: 0 <= i < |pl.rWins| ==> RngOK(CombOf(v.Model()), pl, i)
    ensures b <==> RngHold(CombOf(v.Model()), p, pl, ids)
  {
    hide View.Valid;
    for i := p.rngOff to p.rngOff + p.rngN
      invariant forall k :: p.rngOff <= k < i ==> RngAt(CombOf(v.Model()), pl, k, ids)
    {
      var w := pl.rWins[i];
      assert RngOK(CombOf(v.Model()), pl, i);
      var val := NumberOf(sc, v, w.dim, ids[w.dim]);
      if val < w.min || val > w.max {
        assert !RngAt(CombOf(v.Model()), pl, i, ids);
        return false;
      }
    }
    b := true;
  }

  method MatchEqs(p: GroupPlan, pl: PoolsV, ids: seq<nat>) returns (b: bool)
    requires p.condOff + p.condN <= |pl.condDims| == |pl.condIDs|
    requires forall i :: 0 <= i < |pl.condDims| ==> pl.condDims[i] < |ids|
    ensures b <==> EqHold(p, pl, ids)
  {
    for i := p.condOff to p.condOff + p.condN
      invariant forall k :: p.condOff <= k < i ==> EqAt(pl, k, ids)
    {
      if ids[pl.condDims[i]] != pl.condIDs[i] {
        assert !EqAt(pl, i, ids);
        return false;
      }
    }
    b := true;
  }

  // All plans of a query are good, over the same pools and intervals.
  ghost predicate Planned(sc: Schema, m: ViewV, groups: seq<Group>, plans: seq<GroupPlan>, pl: PoolsV, ivs: seq<Iv>) {
    && ViewOK(sc, m)
    && |plans| == |groups|
    && PoolsWellFormed(CombOf(m), pl)
    && forall i :: 0 <= i < |groups| ==> PlanGroup.PlanGood(sc, m, groups[i], plans[i], pl, ivs)
  }

  // All of one plan's conditions on one row.
  method MatchConds(sc: Schema, v: View, p: GroupPlan, pl: PoolsV, ids: seq<nat>) returns (b: bool)
    requires v.Valid(sc) && InRange(CombOf(v.Model()), ids) && |CombOf(v.Model())| == |sc.dims|
    requires Inside(p, pl) && PoolsWellFormed(CombOf(v.Model()), pl)
    ensures b <==> CondsHold(CombOf(v.Model()), p, pl, ids)
  {
    hide View.Valid, EqHold, InHold, RngHold, WinOK;
    assert forall i :: 0 <= i < |pl.condDims| ==> pl.condDims[i] < |ids| by {
      forall i | 0 <= i < |pl.condDims| ensures pl.condDims[i] < |ids| {
        assert EqOK(CombOf(v.Model()), pl, i);
      }
    }
    b := MatchEqs(p, pl, ids);
    if b && p.insN > 0 {
      b := MatchIns(p, pl, CombOf(v.Model()), ids);
    } else {
      NoIns(p, pl, ids);
    }
    if b && p.rngN > 0 {
      b := MatchRanges(sc, v, p, pl, ids);
    } else {
      NoRngs(CombOf(v.Model()), p, pl, ids);
    }
  }

  lemma NoIns(p: GroupPlan, pl: PoolsV, ids: seq<nat>)
    ensures p.insN == 0 ==> InHold(p, pl, ids)
  {
  }

  lemma NoRngs(comb: Dicts, p: GroupPlan, pl: PoolsV, ids: seq<nat>)
    ensures p.rngN == 0 ==> RngHold(comb, p, pl, ids)
  {
  }

  // matchBase with the IN and range tests: the interval prefilter never hides a match.
  method MatchBaseRow(sc: Schema, v: View, ghost g: Group, p: GroupPlan, pl: PoolsV, ghost ivs: seq<Iv>, r: nat)
    returns (b: bool)
    requires v.Valid(sc) && r < |v.base.rows| && PlanGroup.PlanGood(sc, v.Model(), g, p, pl, ivs)
    requires PoolsWellFormed(CombOf(v.Model()), pl)
    ensures b <==> Matches(sc, Decode(CombOf(v.Model()), v.base.rows[r].ids), g)
  {
    hide SnapOK, Dictionary.AllValid, PoolsWellFormed, CondsHold, Matches, Decode, InRange, DeltaOK, Shadowing,
      Expand.CoverRow;
    RowInComb(sc, v, r);
    GoodAt(sc, v.Model(), g, p, pl, ivs, r);
    if p.dead || !p.basePossible {
      return false;
    }
    if !p.scan && (r < p.lo || r >= p.hi) {
      return false;
    }
    b := MatchConds(sc, v, p, pl, v.base.rows[r].ids);
  }

  lemma RowInComb(sc: Schema, v: View, r: nat)
    requires v.Valid(sc) && r < |v.base.rows|
    ensures InRange(CombOf(v.Model()), v.base.rows[r].ids) && |CombOf(v.Model())| == |sc.dims|
  {
    BaseInComb(sc, v.Model());
  }

  lemma GoodAt(sc: Schema, m: ViewV, g: Group, p: GroupPlan, pl: PoolsV, ivs: seq<Iv>, r: nat)
    requires PlanGroup.PlanGood(sc, m, g, p, pl, ivs) && r < |m.base.rows| && InRange(CombOf(m), m.base.rows[r].ids)
    ensures var hit := Matches(sc, Decode(CombOf(m), m.base.rows[r].ids), g);
            && (p.dead || !p.basePossible ==> !hit)
            && (!p.dead && !p.scan && hit ==> p.lo <= r < p.hi)
            && (!p.dead ==> (hit <==> CondsHold(CombOf(m), p, pl, m.base.rows[r].ids)))
  {
    hide CondsHold, Matches, Decode, InRange, Expand.CoverRow;
    assert Expand.BaseMatches(sc, m, g, r) <==> Matches(sc, Decode(CombOf(m), m.base.rows[r].ids), g);
  }

  method MatchDeltaRow(sc: Schema, v: View, ghost g: Group, p: GroupPlan, pl: PoolsV, ghost ivs: seq<Iv>, r: nat)
    returns (b: bool)
    requires v.Valid(sc) && r < |v.delta.rows| && PlanGroup.PlanGood(sc, v.Model(), g, p, pl, ivs)
    requires PoolsWellFormed(CombOf(v.Model()), pl)
    ensures b <==> Matches(sc, Decode(CombOf(v.Model()), v.delta.rows[r].ids), g)
  {
    hide SnapOK, Dictionary.AllValid, PoolsWellFormed, CondsHold, Matches, Decode, InRange, DeltaOK, Shadowing,
      Expand.CoverRow,
      Expand.BaseMatches;
    DeltaInComb(sc, v, r);
    if p.dead {
      return false;
    }
    b := MatchConds(sc, v, p, pl, v.delta.rows[r].ids);
  }

  lemma DeltaInComb(sc: Schema, v: View, r: nat)
    requires v.Valid(sc) && r < |v.delta.rows|
    ensures InRange(CombOf(v.Model()), v.delta.rows[r].ids) && |CombOf(v.Model())| == |sc.dims|
  {
  }

  // The loop over groups stops at the first match: each row counts once.
  method AnyBase(sc: Schema, v: View, ghost groups: seq<Group>, plans: seq<GroupPlan>, pl: PoolsV,
          ghost ivs: seq<Iv>, r: nat)
    returns (b: bool)
    requires v.Valid(sc) && r < |v.base.rows| && Planned(sc, v.Model(), groups, plans, pl, ivs)
    ensures b <==> MatchesAny(sc, Decode(CombOf(v.Model()), v.base.rows[r].ids), groups)
  {
    hide View.Valid, PlanGroup.PlanGood, PoolsWellFormed, Matches, Decode, ViewOK;
    for gi := 0 to |plans|
      invariant forall k :: 0 <= k < gi ==> !Matches(sc, Decode(CombOf(v.Model()), v.base.rows[r].ids), groups[k])
    {
      var hit := MatchBaseRow(sc, v, groups[gi], plans[gi], pl, ivs, r);
      if hit {
        return true;
      }
    }
    b := false;
  }

  method AnyDelta(sc: Schema, v: View, ghost groups: seq<Group>, plans: seq<GroupPlan>, pl: PoolsV,
          ghost ivs: seq<Iv>, r: nat)
    returns (b: bool)
    requires v.Valid(sc) && r < |v.delta.rows| && Planned(sc, v.Model(), groups, plans, pl, ivs)
    ensures b <==> MatchesAny(sc, Decode(CombOf(v.Model()), v.delta.rows[r].ids), groups)
  {
    hide View.Valid, PlanGroup.PlanGood, PoolsWellFormed, Matches, Decode, ViewOK;
    for gi := 0 to |plans|
      invariant forall k :: 0 <= k < gi ==> !Matches(sc, Decode(CombOf(v.Model()), v.delta.rows[r].ids), groups[k])
    {
      var hit := MatchDeltaRow(sc, v, groups[gi], plans[gi], pl, ivs, r);
      if hit {
        return true;
      }
    }
    b := false;
  }
}
