// What a query works in: pools whose capacity is fixed before planning starts, and
// the shape measure that routes a query to stack-sized or pooled storage.
module Scratch {
  import opened Bits
  import opened Oracle

  // ---- Plan pieces ----

  // Base rows lo up to, but not including, hi.
  datatype Iv = Iv(lo: nat, hi: nat)

  // One IN condition after resolving: its ids, ascending, are inPool[off..off + n].
  datatype InWindow = InWindow(dim: nat, off: nat, n: nat)

  datatype RangeWindow = RangeWindow(dim: nat, min: int, max: int)

  // The plan of one group: where its segments of the pools lie, and its hull.
  datatype GroupPlan = GroupPlan(condOff: nat, condN: nat, insOff: nat, insN: nat, rngOff: nat, rngN: nat,
                                 lo: nat, hi: nat, scan: bool, dead: bool, basePossible: bool)

  const BLANK := GroupPlan(0, 0, 0, 0, 0, 0, 0, 0, false, false, true)

  datatype PoolsV = PoolsV(condDims: seq<nat>, condIDs: seq<nat>, inWins: seq<InWindow>, inPool: seq<nat>,
          rWins: seq<RangeWindow>)

  datatype Caps = Caps(groups: nat, ivs: nat, conds: nat, inConds: nat, inVals: nat, ranges: nat, aggs: nat)

  class QueryScratch {
    const caps: Caps
    var ivs: seq<Iv>
    var condDims: seq<nat>
    var condIDs: seq<nat>
    var inWins: seq<InWindow>
    var inPool: seq<nat>
    var rWins: seq<RangeWindow>
    var plans: seq<GroupPlan>

    // No pool has outgrown its backing array.
    ghost predicate Valid()
      reads this
    {
      && |condDims| == |condIDs| <= caps.conds
      && |inWins| <= caps.inConds && |inPool| <= caps.inVals && |rWins| <= caps.ranges
      && |ivs| <= caps.ivs && |plans| <= caps.groups
    }

    function Pools(): PoolsV
      reads this
    {
      PoolsV(condDims, condIDs, inWins, inPool, rWins)
    }

    constructor (caps: Caps)
      ensures Valid() && this.caps == caps
      ensures ivs == [] && plans == [] && Pools() == PoolsV([], [], [], [], [])
    {
      this.caps := caps;
      ivs, condDims, condIDs, inWins, inPool, rWins, plans := [], [], [], [], [], [], [];
    }

    // Every append re-slices within the backing array: the precondition is the room.
    method PushIv(x: Iv)
      requires Valid() && |ivs| < caps.ivs
      modifies this`ivs
      ensures Valid() && ivs == old(ivs) + [x]
    {
      ivs := ivs + [x];
    }

    method PushCond(d: nat, id: nat)
      requires Valid() && |condDims| < caps.conds
      modifies this`condDims, this`condIDs
      ensures Valid() && condDims == old(condDims) + [d] && condIDs == old(condIDs) + [id]
    {
      condDims, condIDs := condDims + [d], condIDs + [id];
    }

    method PushInWin(w: InWindow)
      requires Valid() && |inWins| < caps.inConds
      modifies this`inWins
      ensures Valid() && inWins == old(inWins) + [w]
    {
      inWins := inWins + [w];
    }

    method PushInId(id: nat)
      requires Valid() && |inPool| < caps.inVals
      modifies this`inPool
      ensures Valid() && inPool == old(inPool) + [id]
    {
      inPool := inPool + [id];
    }

    method PushRange(w: RangeWindow)
      requires Valid() && |rWins| < caps.ranges
      modifies this`rWins
      ensures Valid() && rWins == old(rWins) + [w]
    {
      rWins := rWins + [w];
    }
  }

  // ---- Input shape ----

  const FAST_GROUPS := 16
  const FAST_CONDS := 32
  const FAST_IVS := FAST_GROUPS
  const FAST_IN_CONDS := 16
  const FAST_IN_IDS := 128
  const FAST_RANGES := 16
  const FAST_AGGS := 16
  const EXPANSION_IVS := 4096
  const IV_DEMAND_CAP := 0x10_0000

  // Product of the IN lengths of a group: the most interval slots expansion can want.
  function InProduct(g: Group): (p: nat)
    ensures p >= 1
  {
    if |g| == 0 then 1
    else
      var n := |g| - 1;
      if |g[n].ins| > 0 then MulPos(InProduct(g[..n]), |g[n].ins|) else InProduct(g[..n])
  }

  function MulPos(a: nat, b: nat): (p: nat)
    requires a >= 1 && b >= 1
    ensures p == a * b && p >= a && p >= b && p >= 1
  {
    MulGrows(a, b);
    MulGrows(b, a);
    a * b
  }

  lemma MulGrows(a: nat, b: nat)
    requires b >= 1
    ensures a * b >= a
  {
    assert a * b == a * (b - 1) + a;
  }

  lemma {:induction false} InProductGrows(g: Group, i: nat)
    requires i <= |g|
    ensures InProduct(g[..i]) <= InProduct(g)
    decreases |g|
  {
    if i == |g| {
      assert g[..i] == g;
    } else {
      InProductGrows(g[..|g| - 1], i);
      assert g[..|g| - 1][..i] == g[..i];
    }
  }

  function Min(a: nat, b: nat): nat { if a <= b then a else b }

  // The clamped product never overflows and is exact below the clamp.
  method GroupIvDemand(g: Group) returns (demand: nat)
    ensures demand == if InProduct(g) <= 1_048_576 then InProduct(g) else 1_048_576
  {
    demand := 1;
    for i := 0 to |g|
      invariant demand == InProduct(g[..i]) <= IV_DEMAND_CAP
    {
      assert g[..i + 1][..i] == g[..i];
      var n := |g[i].ins|;
      if n > 0 {
        ClampTest(demand, n, IV_DEMAND_CAP);
        if demand > IV_DEMAND_CAP / n {
          InProductGrows(g, i + 1);
          return IV_DEMAND_CAP;
        }
        demand := demand * n;
      }
    }
    assert g[..|g|] == g;
  }

  lemma ClampTest(a: nat, n: nat, cap: nat)
    requires n > 0
    ensures a > cap / n <==> a * n > cap
  {
    var q := cap / n;
    assert q * n <= cap < (q + 1) * n;
    if a > q {
      MulMono(q + 1, a, n);
    } else {
      MulMono(a, q, n);
    }
  }

  // What kind of condition the measure counts.
  function Count(g: Group, kind: Kind): nat {
    if |g| == 0 then 0
    else Count(g[..|g| - 1], kind) + Weight(g[|g| - 1], kind)
  }

  datatype Kind = Ranges | InConds | InVals | Conds

  function Weight(c: Cond, kind: Kind): nat {
    if c.range.Some? then (if kind == Ranges then 1 else 0)
    else if |c.ins| > 0 then (if kind == InConds then 1 else if kind == InVals then |c.ins| else 0)
    else (if kind == Conds then 1 else 0)
  }

  function CountAll(groups: seq<Group>, kind: Kind): nat {
    if |groups| == 0 then 0
    else CountAll(groups[..|groups| - 1], kind) + Count(groups[|groups| - 1], kind)
  }

  function DemandAll(groups: seq<Group>): nat {
    if |groups| == 0 then 0
    else DemandAll(groups[..|groups| - 1]) + Min(InProduct(groups[|groups| - 1]), IV_DEMAND_CAP)
  }

  datatype QueryShape = QueryShape(groups: nat, conds: nat, inConds: nat, inVals: nat, ranges: nat, aggs: nat,
          ivDemand: nat)

  function ShapeOf(groups: seq<Group>, nAggs: nat): QueryShape {
    QueryShape(|groups|, CountAll(groups, Conds), CountAll(groups, InConds), CountAll(groups, InVals),
               CountAll(groups, Ranges), nAggs, DemandAll(groups))
  }

  method MeasureShape(groups: seq<Group>, nAggs: nat) returns (sh: QueryShape)
    ensures sh == ShapeOf(groups, nAggs)
  {
    hide Count;
    sh := QueryShape(|groups|, 0, 0, 0, 0, nAggs, 0);
    for i := 0 to |groups|
      invariant sh == ShapeOf(groups[..i], nAggs).(groups := |groups|)
    {
      assert groups[..i + 1][..i] == groups[..i];
      sh := MeasureGroup(sh, groups[i]);
    }
    assert groups[..|groups|] == groups;
  }

  method MeasureGroup(sh0: QueryShape, g: Group) returns (sh: QueryShape)
    ensures sh == sh0.(conds := sh0.conds + Count(g, Conds), inConds := sh0.inConds + Count(g, InConds),
                       inVals := sh0.inVals + Count(g, InVals), ranges := sh0.ranges + Count(g, Ranges),
                       ivDemand := sh0.ivDemand + Min(InProduct(g), IV_DEMAND_CAP))
  {
    sh := sh0;
    for k := 0 to |g|
      invariant sh == sh0.(conds := sh0.conds + Count(g[..k], Conds), inConds := sh0.inConds + Count(g[..k], InConds),
                           inVals := sh0.inVals + Count(g[..k], InVals), ranges := sh0.ranges + Count(g[..k], Ranges))
    {
      var c := g[k];
      assert g[..k + 1][..k] == g[..k];
      if c.range.Some? {
        sh := sh.(ranges := sh.ranges + 1);
      } else if |c.ins| > 0 {
        sh := sh.(inConds := sh.inConds + 1, inVals := sh.inVals + |c.ins|);
      } else {
        sh := sh.(conds := sh.conds + 1);
      }
    }
    assert g[..|g|] == g;
    var d := GroupIvDemand(g);
    sh := sh.(ivDemand := sh.ivDemand + d);
  }

  // Whether the query runs on stack-sized pools.
  predicate FitsStack(sh: QueryShape) {
    !(sh.inConds > 0 && sh.ivDemand > FAST_IVS)
    && sh.groups <= FAST_GROUPS && sh.conds <= FAST_CONDS
    && sh.inConds <= FAST_IN_CONDS && sh.inVals <= FAST_IN_IDS
    && sh.ranges <= FAST_RANGES && sh.aggs <= FAST_AGGS
  }

  const FAST := Caps(FAST_GROUPS, FAST_IVS, FAST_CONDS, FAST_IN_CONDS, FAST_IN_IDS, FAST_RANGES, FAST_AGGS)

  // Capacity after grow: kept when large enough, else exactly what is asked for.
  function Grow(cap: nat, n: nat): nat { if cap < n then n else cap }

  // A scratch taken from the pool carries whatever capacity earlier queries left.
  function PooledCaps(prev: Caps, sh: QueryShape): Caps {
    Caps(Grow(prev.groups, sh.groups),
         Grow(prev.ivs, sh.groups + (if sh.inConds > 0 then EXPANSION_IVS else 0)),
         Grow(prev.conds, sh.conds), Grow(prev.inConds, sh.inConds), Grow(prev.inVals, sh.inVals),
         Grow(prev.ranges, sh.ranges), Grow(prev.aggs, sh.aggs))
  }

  // The workspace a query is routed to.
  function CapsFor(groups: seq<Group>, nAggs: nat, prev: Caps): Caps {
    var sh := ShapeOf(groups, nAggs);
    if FitsStack(sh) then FAST else PooledCaps(prev, sh)
  }

  // Interval slots: 16 on the stack; in the pool one for each group, 4096 more when anything
  // is listed, and never fewer than an earlier query left.
  function SlotsIn(groups: seq<Group>, stack: bool, left: nat): nat {
    if stack then 16
    else
      var n := |groups| + (if CountAll(groups, InConds) > 0 then 4096 else 0);
      if left < n then n else left
  }

  // Room for everything planning these groups can append.
  ghost predicate Room(caps: Caps, groups: seq<Group>, nAggs: nat) {
    && |groups| <= caps.groups && |groups| <= caps.ivs
    && CountAll(groups, Conds) <= caps.conds && CountAll(groups, InConds) <= caps.inConds
    && CountAll(groups, InVals) <= caps.inVals && CountAll(groups, Ranges) <= caps.ranges
    && nAggs <= caps.aggs
  }

  // Routing: the workspace a query gets always has room.
  method Route(groups: seq<Group>, nAggs: nat, prev: Caps) returns (qs: QueryScratch, stack: bool)
    ensures fresh(qs) && qs.Valid() && Room(qs.caps, groups, nAggs)
    ensures qs.ivs == [] && qs.plans == [] && qs.Pools() == PoolsV([], [], [], [], [])
    ensures stack <==> FitsStack(ShapeOf(groups, nAggs))
    ensures stack <==>
              && |groups| <= 16 && CountAll(groups, Conds) <= 32 && CountAll(groups, InConds) <= 16
              && CountAll(groups, InVals) <= 128 && CountAll(groups, Ranges) <= 16 && nAggs <= 16
              && (CountAll(groups, InConds) == 0 || DemandAll(groups) <= 16)
    ensures qs.caps == CapsFor(groups, nAggs, prev)
    ensures qs.caps.ivs == SlotsIn(groups, stack, prev.ivs)
  {
    var sh := MeasureShape(groups, nAggs);
    stack := FitsStack(sh);
    if stack {
      qs := new QueryScratch(FAST);
    } else {
      qs := new QueryScratch(PooledCaps(prev, sh));
    }
  }
}
