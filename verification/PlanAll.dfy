// planGroups(): every group planned, intervals sorted, and the scan budget checked
// before any row is touched.
module PlanAll {
  import opened Decimal
  import opened Table
  import Dictionary
  import Engine
  import opened Oracle
  import opened Upsert
  import opened Scratch
  import Conditions
  import Planner
  import opened Expand
  import opened Reach
  import opened PlanGroup
  import Insertion
  import Renumber

  // ---- Sorting intervals ----

  const INSERTION_MAX := 32

  ghost predicate ByLo(ivs: seq<Iv>) {
    forall i, j :: 0 <= i < j < |ivs| ==> ivs[i].lo <= ivs[j].lo
  }

  ghost predicate SameIvs(a: seq<Iv>, b: seq<Iv>) {
    |a| == |b| && forall x :: x in a <==> x in b
  }

  lemma InsertIvOK(ivs: seq<Iv>, p: nat, x: Iv)
    requires ByLo(ivs) && p <= |ivs| && (p > 0 ==> ivs[p - 1].lo <= x.lo) && forall k :: p <= k < |ivs| ==>
               x.lo < ivs[k].lo
    ensures ByLo(Insertion.InsertAt(ivs, p, x))
    ensures forall y :: y in Insertion.InsertAt(ivs, p, x) <==> y == x || y in ivs
  {
    hide Insertion.InsertAt;
    Insertion.InsertKeeps(ivs, p, x);
  }

  // The small-count insertion sort, in place: element i sinks to its position by
  // exchanging neighbours.
  method InsertionSort(a: array<Iv>)
    modifies a
    ensures ByLo(a[..]) && SameIvs(old(a[..]), a[..])
  {
    hide ByLo, SameIvs;
    NoneSorted(a[..0]);
    assert old(a[..0]) == a[..0];
    for i := 0 to a.Length
      invariant ByLo(a[..i]) && SameIvs(old(a[..i]), a[..i])
      invariant forall k :: i <= k < a.Length ==> a[k] == old(a[k])
    {
      ghost var sorted, x := a[..i], a[i];
      ghost var p := SinkElement(a, i);
      InsertIvOK(sorted, p, x);
      assert old(a[..i + 1]) == old(a[..i]) + [x];
      OneMore(old(a[..i]), sorted, x, a[..i + 1]);
    }
    assert a[..a.Length] == a[..];
    assert old(a[..a.Length]) == old(a[..]);
  }

  lemma NoneSorted(s: seq<Iv>)
    requires s == []
    ensures ByLo(s) && SameIvs(s, s)
  {
  }

  lemma OneMore(was: seq<Iv>, sorted: seq<Iv>, x: Iv, now: seq<Iv>)
    requires SameIvs(was, sorted) && |now| == |sorted| + 1 && forall y :: y in now <==> y == x || y in sorted
    ensures SameIvs(was + [x], now)
  {
  }

  // The inner loop: the prefix ends up with element i inserted at p.
  method SinkElement(a: array<Iv>, i: nat) returns (ghost p: nat)
    requires i < a.Length && ByLo(a[..i])
    modifies a
    ensures p <= i && a[..i + 1] == Insertion.InsertAt(old(a[..i]), p, old(a[i]))
    ensures p > 0 ==> old(a[p - 1]).lo <= old(a[i]).lo
    ensures forall k :: p <= k < i ==> old(a[i]).lo < old(a[k]).lo
    ensures forall k :: i < k < a.Length ==> a[k] == old(a[k])
  {
    hide Insertion.InsertAt, ByLo;
    ghost var sorted, x := a[..i], a[i];
    var j := i;
    InsertLast(sorted, x);
    assert a[..i + 1] == sorted + [x];
    while j > 0 && a[j].lo < a[j - 1].lo
      invariant 0 <= j <= i
      invariant a[..i + 1] == Insertion.InsertAt(sorted, j, x)
      invariant forall k :: j <= k < i ==> x.lo < sorted[k].lo
      invariant forall k :: i < k < a.Length ==> a[k] == old(a[k])
    {
      Sink(a[..i + 1], sorted, j, x);
      a[j], a[j - 1] := a[j - 1], a[j];
      assert a[..i + 1] == Insertion.InsertAt(sorted, j - 1, x);
      j := j - 1;
    }
    assert a[..i + 1][j] == x;
    assert j > 0 ==> a[..i + 1][j - 1] == sorted[j - 1];
    p := j;
  }

  lemma InsertLast(sorted: seq<Iv>, x: Iv)
    ensures Insertion.InsertAt(sorted, |sorted|, x) == sorted + [x]
  {
  }

  lemma Sink(s: seq<Iv>, sorted: seq<Iv>, j: nat, x: Iv)
    requires 0 < j <= |sorted| && s == Insertion.InsertAt(sorted, j, x)
    ensures s[j] == x && s[j - 1] == sorted[j - 1]
    ensures s[j := sorted[j - 1]][j - 1 := x] == Insertion.InsertAt(sorted, j - 1, x)
  {
  }

  // slices.SortFunc by lo, used above the insertion threshold.
  method SortFunc(ivs: seq<Iv>) returns (r: seq<Iv>)
    ensures ByLo(r) && SameIvs(ivs, r)
  {
    r := [];
    for i := 0 to |ivs|
      invariant ByLo(r) && SameIvs(ivs[..i], r)
    {
      var p := |r|;
      while p > 0 && ivs[i].lo < r[p - 1].lo
        invariant 0 <= p <= |r|
        invariant forall k :: p <= k < |r| ==> ivs[i].lo < r[k].lo
      {
        p := p - 1;
      }
      InsertIvOK(r, p, ivs[i]);
      assert ivs[..i + 1] == ivs[..i] + [ivs[i]];
      r := Insertion.InsertAt(r, p, ivs[i]);
    }
    assert ivs[..|ivs|] == ivs;
  }

  method SortIvs(qs: QueryScratch)
    requires qs.Valid()
    modifies qs`ivs
    ensures qs.Valid() && ByLo(qs.ivs) && SameIvs(old(qs.ivs), qs.ivs)
  {
    if |qs.ivs| <= INSERTION_MAX {
      var a := new Iv[|qs.ivs|](i requires 0 <= i < |qs.ivs| reads qs => qs.ivs[i]);
      assert a[..] == qs.ivs;
      InsertionSort(a);
      qs.ivs := a[..];
    } else {
      qs.ivs := SortFunc(qs.ivs);
    }
  }

  lemma SortCovers(a: seq<Iv>, b: seq<Iv>, r: nat)
    requires SameIvs(a, b)
    ensures CoverRow(a, r) <==> CoverRow(b, r)
  {
    if CoverRow(a, r) {
      var i :| 0 <= i < |a| && a[i].lo <= r < a[i].hi;
      assert a[i] in b;
    }
    if CoverRow(b, r) {
      var i :| 0 <= i < |b| && b[i].lo <= r < b[i].hi;
      assert b[i] in a;
    }
  }

  lemma SortIvsOK(a: seq<Iv>, b: seq<Iv>, n: nat)
    requires SameIvs(a, b) && IvsOK(a, n)
    ensures IvsOK(b, n)
  {
    forall i | 0 <= i < |b| ensures b[i].lo < b[i].hi <= n {
      assert b[i] in a;
    }
  }

  // ---- The scan budget ----

  // High-water mark after the first i intervals.
  function HighWater(ivs: seq<Iv>, i: nat): nat
    requires i <= |ivs|
  {
    if i == 0 then 0 else if ivs[i - 1].hi <= HighWater(ivs, i - 1) then HighWater(ivs, i - 1) else ivs[i - 1].hi
  }

  lemma {:induction false} HighWaterTop(ivs: seq<Iv>, i: nat)
    requires i <= |ivs|
    ensures forall k :: 0 <= k < i ==> ivs[k].hi <= HighWater(ivs, i)
    ensures i > 0 && HighWater(ivs, i) > 0 ==> exists k :: 0 <= k < i && ivs[k].hi == HighWater(ivs, i)
    ensures i == 0 ==> HighWater(ivs, i) == 0
  {
    if i == 0 {
    } else {
      HighWaterTop(ivs, i - 1);
    }
  }

  // Interval i adds exactly the rows from max(lo, mark) to hi.
  lemma CoverStep(ivs: seq<Iv>, i: nat, r: nat)
    requires i < |ivs| && ByLo(ivs)
    ensures CoverRow(ivs[..i + 1], r) <==>
              CoverRow(ivs[..i], r) || (HighWater(ivs, i) <= r && ivs[i].lo <= r < ivs[i].hi)
    ensures CoverRow(ivs[..i], r) ==> r < HighWater(ivs, i)
    ensures ivs[i].lo <= r < HighWater(ivs, i) ==> CoverRow(ivs[..i], r)
  {
    HighWaterTop(ivs, i);
    var (a, b) := (ivs[..i], ivs[..i + 1]);
    if CoverRow(a, r) {
      var k :| 0 <= k < i && a[k].lo <= r < a[k].hi;
      assert b[k].lo <= r < b[k].hi;
      assert ivs[k].hi <= HighWater(ivs, i);
    }
    if ivs[i].lo <= r < HighWater(ivs, i) {
      var k :| 0 <= k < i && ivs[k].hi == HighWater(ivs, i);
      assert ivs[k].lo <= ivs[i].lo;
      assert a[k].lo <= r < a[k].hi;
    }
    if CoverRow(b, r) {
      var k :| 0 <= k < i + 1 && b[k].lo <= r < b[k].hi;
      if k < i {
        assert a[k].lo <= r < a[k].hi;
      }
    }
    if ivs[i].lo <= r < ivs[i].hi {
      assert b[i].lo <= r < b[i].hi;
    }
  }

  // The rows some interval covers.
  ghost function Covered(ivs: seq<Iv>, n: nat): set<nat> {
    set r | r in Renumber.AllIds(n) && CoverRow(ivs, r)
  }

  // The rows the query reaches.
  ghost function ReachSet(sc: Schema, m: ViewV, groups: seq<Group>, rooms: seq<Option<nat>>): set<nat> {
    set r | r in Renumber.AllIds(|m.base.rows|) && Reaches(sc, m, groups, rooms, r)
  }

  lemma CoveredAre(sc: Schema, m: ViewV, groups: seq<Group>, rooms: seq<Option<nat>>, ivs: seq<Iv>)
    requires forall r: nat :: CoverRow(ivs, r) <==> Reaches(sc, m, groups, rooms, r)
    ensures Covered(ivs, |m.base.rows|) == ReachSet(sc, m, groups, rooms)
  {
    hide CoverRow, Reaches;
  }

  lemma {:induction false} SpanCard(lo: nat, hi: nat, s: set<nat>)
    requires lo <= hi && forall r: nat :: r in s <==> lo <= r < hi
    ensures |s| == hi - lo
    decreases hi - lo
  {
    if lo == hi {
      assert s == {};
    } else {
      SpanCard(lo, hi - 1, s - {hi - 1});
    }
  }

  lemma CoveredGrows(ivs: seq<Iv>, i: nat, n: nat)
    requires i < |ivs| && ByLo(ivs) && IvsOK(ivs, n)
    ensures var (hw, lo, hi) := (HighWater(ivs, i), ivs[i].lo, ivs[i].hi);
            |Covered(ivs[..i + 1], n)|
            == |Covered(ivs[..i], n)| + (if hi <= hw then 0 else hi - (if lo < hw then hw else lo))
  {
    hide ByLo, IvsOK, CoverRow, HighWater, Covered;
    var (hw, lo, hi) := (HighWater(ivs, i), ivs[i].lo, ivs[i].hi);
    var from := if lo < hw then hw else lo;
    var (a, b) := (Covered(ivs[..i], n), Covered(ivs[..i + 1], n));
    IvInside(ivs, i, n);
    forall r: nat ensures (r in a ==> r < hw) && (r in b <==> r in a || from <= r < hi) {
      CoverStep(ivs, i, r);
      InCovered(ivs[..i], n, r);
      InCovered(ivs[..i + 1], n, r);
    }
    AddSpan(a, b, if hi <= hw then hi else from, hi);
  }

  lemma InCovered(ivs: seq<Iv>, n: nat, r: nat)
    ensures r in Covered(ivs, n) <==> r < n && CoverRow(ivs, r)
  {
  }

  // b is a with the rows from lo to hi, none of them in a.
  lemma AddSpan(a: set<nat>, b: set<nat>, lo: nat, hi: nat)
    requires lo <= hi && forall r: nat :: r in b <==> r in a || lo <= r < hi
    requires forall r: nat :: r in a ==> r < lo || hi <= r
    ensures |b| == |a| + (hi - lo)
  {
    var added := b - a;
    SpanCard(lo, hi, added);
    assert b == a + added;
  }

  lemma IvInside(ivs: seq<Iv>, i: nat, n: nat)
    requires i < |ivs| && IvsOK(ivs, n)
    ensures ivs[i].lo < ivs[i].hi <= n
  {
  }

  // Work the sweep is about to do: covered rows once each, plus the whole delta.
  method ScanRows(ivs: seq<Iv>, ghost n: nat, deltaRows: nat) returns (total: nat)
    requires ByLo(ivs) && IvsOK(ivs, n)
    ensures total == |Covered(ivs, n)| + deltaRows
  {
    hide Covered;
    total := deltaRows;
    var hw := 0;
    NothingCovered(ivs, n);
    for i := 0 to |ivs|
      invariant hw == HighWater(ivs, i)
      invariant total == |Covered(ivs[..i], n)| + deltaRows
    {
      CoveredGrows(ivs, i, n);
      var lo, hi := ivs[i].lo, ivs[i].hi;
      if lo < hw {
        lo := hw;
      }
      if hi <= hw {
        continue;
      }
      total := total + (hi - lo);
      hw := hi;
    }
    assert ivs[..|ivs|] == ivs;
  }

  lemma NothingCovered(ivs: seq<Iv>, n: nat)
    ensures |Covered(ivs[..0], n)| == 0
  {
    assert Covered(ivs[..0], n) == {};
  }

  // ---- Planning every group ----

  function ProductAll(groups: seq<Group>): nat {
    if |groups| == 0 then 0 else ProductAll(groups[..|groups| - 1]) + InProduct(groups[|groups| - 1])
  }

  lemma {:induction false} ProductAtLeast(groups: seq<Group>, i: nat)
    requires i <= |groups|
    ensures ProductAll(groups[..i]) + (|groups| - i) <= ProductAll(groups)
    decreases |groups|
  {
    if i == |groups| {
      assert groups[..i] == groups;
    } else {
      assert groups[..|groups| - 1][..i] == groups[..i];
      ProductAtLeast(groups[..|groups| - 1], i);
    }
  }

  lemma ProductStep(groups: seq<Group>, i: nat)
    requires i < |groups|
    ensures ProductAll(groups[..i + 1]) == ProductAll(groups[..i]) + InProduct(groups[i])
  {
    assert groups[..i + 1][..i] == groups[..i];
  }

  // Below the clamp the measured demand is the true product sum.
  lemma {:induction false} DemandIsProduct(groups: seq<Group>)
    requires DemandAll(groups) < IV_DEMAND_CAP
    ensures ProductAll(groups) == DemandAll(groups)
  {
    if |groups| == 0 {
    } else {
      DemandIsProduct(groups[..|groups| - 1]);
    }
  }

  lemma {:induction false} CountAllGrows(groups: seq<Group>, i: nat, kind: Kind)
    requires i <= |groups|
    ensures CountAll(groups[..i], kind) <= CountAll(groups, kind)
    decreases |groups|
  {
    if i == |groups| {
      assert groups[..i] == groups;
    } else {
      assert groups[..|groups| - 1][..i] == groups[..i];
      CountAllGrows(groups[..|groups| - 1], i, kind);
    }
  }

  lemma CountAllStep(groups: seq<Group>, i: nat, kind: Kind)
    requires i < |groups|
    ensures CountAll(groups[..i + 1], kind) == CountAll(groups[..i], kind) + Count(groups[i], kind)
    ensures CountAll(groups[..i + 1], kind) <= CountAll(groups, kind)
  {
    assert groups[..i + 1][..i] == groups[..i];
    CountAllGrows(groups, i + 1, kind);
  }

  // ---- Slots ----

  // From one group to the next the free slots shrink by what the group takes beyond the
  // one owed to it, never more than its list product.
  ghost predicate RoomStep(sc: Schema, m: ViewV, g: Group, room: nat, next: nat) {
    next <= room + 1 <= next + InProduct(g) && SlotsTaken(sc, m, g, Some(room), room + 1 - next)
  }

  // Slots free to each group, of caps in all; every later group is owed one.
  ghost predicate RoomsOK(sc: Schema, m: ViewV, groups: seq<Group>, caps: nat, rooms: seq<Option<nat>>) {
    && |rooms| == |groups|
    && (forall i :: 0 <= i < |rooms| ==> rooms[i].Some? && rooms[i].value >= 1)
    && (|rooms| > 0 ==> rooms[0].value + |groups| == caps + 1)
    && forall i :: 0 <= i < |rooms| - 1 ==> RoomStep(sc, m, groups[i], rooms[i].value, rooms[i + 1].value)
  }

  // The slots free to each group follow from the query, the view and the capacity.
  lemma RoomsUnique(sc: Schema, m: ViewV, groups: seq<Group>, caps: nat, a: seq<Option<nat>>, b: seq<Option<nat>>)
    requires RoomsOK(sc, m, groups, caps, a) && RoomsOK(sc, m, groups, caps, b)
    ensures a == b
  {
    hide RoomStep;
    forall i | 0 <= i < |groups| ensures a[i] == b[i] {
      RoomAt(sc, m, groups, caps, a, b, i);
    }
  }

  lemma {:induction false} RoomAt(sc: Schema, m: ViewV, groups: seq<Group>, caps: nat, a: seq<Option<nat>>,
          b: seq<Option<nat>>, i: nat)
    requires RoomsOK(sc, m, groups, caps, a) && RoomsOK(sc, m, groups, caps, b) && i < |groups|
    ensures a[i] == b[i]
  {
    hide SlotsTaken, InProduct;
    if i == 0 {
    } else {
      RoomAt(sc, m, groups, caps, a, b, i - 1);
      assert RoomStep(sc, m, groups[i - 1], a[i - 1].value, a[i].value);
      assert RoomStep(sc, m, groups[i - 1], b[i - 1].value, b[i].value);
      SlotsUnique(sc, m, groups[i - 1], a[i - 1], a[i - 1].value + 1 - a[i].value, b[i - 1].value + 1 - b[i].value);
    }
  }

  lemma {:induction false} RoomAtLeast(sc: Schema, m: ViewV, groups: seq<Group>, caps: nat,
          rooms: seq<Option<nat>>, i: nat)
    requires RoomsOK(sc, m, groups, caps, rooms) && i < |groups|
    ensures caps + i + 1 <= rooms[i].value + ProductAll(groups[..i]) + |groups|
  {
    hide SlotsTaken;
    if i == 0 {
    } else {
      RoomAtLeast(sc, m, groups, caps, rooms, i - 1);
      ProductStep(groups, i - 1);
      assert RoomStep(sc, m, groups[i - 1], rooms[i - 1].value, rooms[i].value);
    }
  }

  // A slot for every combination of every group, or no list anywhere: room decides nothing.
  lemma RoomDecidesNothing(sc: Schema, m: ViewV, groups: seq<Group>, caps: nat, rooms: seq<Option<nat>>, r: nat)
    requires RoomsOK(sc, m, groups, caps, rooms) && (ProductAll(groups) <= caps || CountAll(groups, InConds) == 0)
    ensures Reaches(sc, m, groups, rooms, r) <==> Reaches(sc, m, groups, Unlimited(|groups|), r)
  {
    hide PrefixHolds, PrefixDepth, Plannable, InProduct, Count, ProductAll, CountAll;
    forall i | 0 <= i < |groups|
      ensures GroupReaches(sc, m, groups[i], rooms[i], r) <==> GroupReaches(sc, m, groups[i], None, r)
    {
      RoomAtLeast(sc, m, groups, caps, rooms, i);
      ProductStep(groups, i);
      ProductAtLeast(groups, i + 1);
      CountAllStep(groups, i, InConds);
      RoomIsEnough(sc, m.base.dicts, groups[i], |m.base.rows|, rooms[i].value);
    }
  }

  // Pools filled by the first i groups.
  ghost predicate FilledBy(pl: PoolsV, groups: seq<Group>, i: nat)
    requires i <= |groups|
  {
    && |pl.condDims| <= CountAll(groups[..i], Conds) && |pl.inWins| <= CountAll(groups[..i], InConds)
    && |pl.inPool| <= CountAll(groups[..i], InVals) && |pl.rWins| <= CountAll(groups[..i], Ranges)
  }

  lemma RoomForNext(caps: Caps, pl: PoolsV, groups: seq<Group>, i: nat, nAggs: nat)
    requires i < |groups| && Room(caps, groups, nAggs) && FilledBy(pl, groups, i)
    ensures RoomFor(caps, pl, groups[i])
  {
    CountAllStep(groups, i, Conds);
    CountAllStep(groups, i, InConds);
    CountAllStep(groups, i, InVals);
    CountAllStep(groups, i, Ranges);
  }

  lemma FilledNext(a: PoolsV, b: PoolsV, groups: seq<Group>, i: nat)
    requires i < |groups| && FilledBy(a, groups, i) && UsedUp(a, b, groups[i])
    ensures FilledBy(b, groups, i + 1)
  {
    CountAllStep(groups, i, Conds);
    CountAllStep(groups, i, InConds);
    CountAllStep(groups, i, InVals);
    CountAllStep(groups, i, Ranges);
  }

  // Plans already made survive the planning of later groups.
  lemma PlanStays(sc: Schema, m: ViewV, g: Group, p: GroupPlan, a: PoolsV, b: PoolsV, ivs: seq<Iv>, ivs': seq<Iv>)
    requires PlanGood(sc, m, g, p, a, ivs) && Conditions.Grown(a, b) && Conditions.PoolsOK(a) && Conditions.PoolsOK(b)
    requires forall r: nat :: CoverRow(ivs, r) ==> CoverRow(ivs', r)
    ensures PlanGood(sc, m, g, p, b, ivs')
  {
    hide Matches, Decode, InRange, CoverRow, BaseMatches, Conditions.CondsHold;
    forall ids ensures Conditions.CondsHold(CombOf(m), p, b, ids) <==> Conditions.CondsHold(CombOf(m), p, a, ids) {
      Conditions.CondsStable(CombOf(m), p, a, b, ids);
    }
    Conditions.CondsStable(CombOf(m), p, a, b, []);
  }

  // What holds after i groups.
  ghost predicate PlannedUpTo(sc: Schema, m: ViewV, groups: seq<Group>, i: nat, plans: seq<GroupPlan>, pl: PoolsV,
          ivs: seq<Iv>, rooms: seq<Option<nat>>)
  {
    && i <= |groups| && |plans| == i
    && Planner.PoolsWellFormed(CombOf(m), pl)
    && FilledBy(pl, groups, i)
    && IvsOK(ivs, |m.base.rows|)
    && (forall k :: 0 <= k < i ==> PlanGood(sc, m, groups[k], plans[k], pl, ivs))
    && |rooms| == i && forall r: nat :: CoverRow(ivs, r) <==> Reaches(sc, m, groups[..i], rooms, r)
  }

  lemma PlannedNext(sc: Schema, m: ViewV, groups: seq<Group>, i: nat, plans: seq<GroupPlan>, a: PoolsV, b: PoolsV,
          ivs: seq<Iv>, ivs': seq<Iv>, p: GroupPlan, rooms: seq<Option<nat>>, room: nat)
    requires PlannedUpTo(sc, m, groups, i, plans, a, ivs, rooms) && i < |groups| && UsedUp(a, b, groups[i])
    requires Planner.PoolsWellFormed(CombOf(m), b) && PlanGood(sc, m, groups[i], p, b, ivs')
    requires ivs <= ivs' && IvsOK(ivs', |m.base.rows|) && Reached(sc, m, groups[i], room, ivs'[|ivs|..])
    ensures PlannedUpTo(sc, m, groups, i + 1, plans + [p], b, ivs', rooms + [Some(room)])
  {
    hide PlanGood, CoverRow, IvsOK, FilledBy, UsedUp, Planner.EqOK, Planner.WinOK, Planner.RngOK, Reaches, Reached;
    FilledNext(a, b, groups, i);
    GrownBy(a, b, groups[i]);
    forall r: nat | CoverRow(ivs, r) ensures CoverRow(ivs', r) {
      CoverGrows(ivs, ivs', r);
    }
    forall k | 0 <= k < i ensures PlanGood(sc, m, groups[k], plans[k], b, ivs') {
      PlanStays(sc, m, groups[k], plans[k], a, b, ivs, ivs');
    }
    forall r: nat ensures CoverRow(ivs', r) <==> Reaches(sc, m, groups[..i + 1], rooms + [Some(room)], r) {
      CoverSplit(ivs, ivs', r);
      ReachesNext(sc, m, groups, i, rooms, room, r);
      ReachedAt(sc, m, groups[i], room, ivs'[|ivs|..], r);
    }
  }

  lemma ReachedAt(sc: Schema, m: ViewV, g: Group, room: nat, ivs: seq<Iv>, r: nat)
    requires Reached(sc, m, g, room, ivs)
    ensures CoverRow(ivs, r) <==> GroupReaches(sc, m, g, Some(room), r)
  {
    hide CoverRow, GroupReaches;
  }

  lemma CoverSplit(a: seq<Iv>, b: seq<Iv>, r: nat)
    requires a <= b
    ensures CoverRow(b, r) <==> CoverRow(a, r) || CoverRow(b[|a|..], r)
  {
    if CoverRow(a, r) {
      CoverGrows(a, b, r);
    }
    if CoverRow(b[|a|..], r) {
      TailCovers(a, b, r);
    }
    if CoverRow(b, r) {
      var i :| 0 <= i < |b| && b[i].lo <= r < b[i].hi;
      if i < |a| {
        assert a[i] == b[i];
      } else {
        assert b[|a|..][i - |a|] == b[i];
      }
    }
  }

  lemma ReachesNext(sc: Schema, m: ViewV, groups: seq<Group>, i: nat, rooms: seq<Option<nat>>, room: nat, r: nat)
    requires i < |groups| && |rooms| == i
    ensures Reaches(sc, m, groups[..i + 1], rooms + [Some(room)], r)
            <==> Reaches(sc, m, groups[..i], rooms, r) || GroupReaches(sc, m, groups[i], Some(room), r)
  {
    hide GroupReaches;
    var (gs, rs) := (groups[..i + 1], rooms + [Some(room)]);
    assert gs[i] == groups[i] && rs[i] == Some(room);
    assert forall k :: 0 <= k < i ==> gs[k] == groups[..i][k] && rs[k] == rooms[k];
  }

  lemma GrownBy(a: PoolsV, b: PoolsV, g: Group)
    requires UsedUp(a, b, g)
    ensures Conditions.Grown(a, b)
  {
  }

  datatype PlanResult = NoGroups | BadCond | OverBudget | Ready

  // Some group's first non-usable condition is invalid.
  ghost predicate AnyInvalid(sc: Schema, comb: Dicts, groups: seq<Group>) {
    |comb| == |sc.dims| && exists g :: 0 <= g < |groups| && Conditions.JudgeGroup(sc, comb, groups[g]).Invalid?
  }

  ghost predicate FreshScratch(qs: QueryScratch)
    reads qs
  {
    qs.Valid() && qs.ivs == [] && qs.plans == [] && qs.Pools() == PoolsV([], [], [], [], [])
  }

  // The slots left to the first i groups, used intervals in all, and to the next one.
  ghost predicate RoomsUpTo(sc: Schema, m: ViewV, groups: seq<Group>, caps: nat, rooms: seq<Option<nat>>, i: nat,
          used: nat)
  {
    && |rooms| == i <= |groups| && used + (|groups| - i) <= caps && (i == 0 ==> used == 0)
    && (forall k :: 0 <= k < i ==> rooms[k].Some? && rooms[k].value >= 1)
    && (i > 0 ==> rooms[0].value + |groups| == caps + 1)
    && (forall k :: 0 <= k < i - 1 ==> RoomStep(sc, m, groups[k], rooms[k].value, rooms[k + 1].value))
    && (0 < i < |groups| ==> RoomStep(sc, m, groups[i - 1], rooms[i - 1].value, caps - used - (|groups| - i - 1)))
  }

  lemma RoomsNext(sc: Schema, m: ViewV, groups: seq<Group>, caps: nat, rooms: seq<Option<nat>>, i: nat, used: nat,
          used': nat)
    requires RoomsUpTo(sc, m, groups, caps, rooms, i, used) && i < |groups| && used <= used'
    requires var room := caps - used - (|groups| - i - 1);
             room >= used' - used && RoomStep(sc, m, groups[i], room, room + 1 + used - used')
    ensures RoomsUpTo(sc, m, groups, caps, rooms + [Some(caps - used - (|groups| - i - 1) as nat)], i + 1, used')
  {
    hide RoomStep;
  }

  lemma RoomsDone(sc: Schema, m: ViewV, groups: seq<Group>, caps: nat, rooms: seq<Option<nat>>, used: nat)
    requires RoomsUpTo(sc, m, groups, caps, rooms, |groups|, used)
    ensures RoomsOK(sc, m, groups, caps, rooms)
  {
    hide RoomStep;
  }

  // Plans every group in turn. What the intervals cover is what the query reaches.
  method PlanLoop(sc: Schema, v: Engine.View, groups: seq<Group>, qs: QueryScratch, ghost nAggs: nat)
    returns (ok: bool, ghost rooms: seq<Option<nat>>)
    requires v.Valid(sc) && FreshScratch(qs) && Room(qs.caps, groups, nAggs)
    modifies qs
    ensures qs.Valid()
    ensures ok <==> !AnyInvalid(sc, CombOf(v.Model()), groups)
    ensures ok ==> PlannedUpTo(sc, v.Model(), groups, |groups|, qs.plans, qs.Pools(), qs.ivs, rooms)
    ensures ok ==> RoomsOK(sc, v.Model(), groups, qs.caps.ivs, rooms)
  {
    hide ViewOK, SnapOK, Dictionary.AllValid, PlannedUpTo, PlanGood, Planner.PoolsWellFormed, Conditions.JudgeGroup,
      RoomFor, FilledBy, UsedUp, IvsOK, CountAll, InProduct, Count, RoomStep, RoomsUpTo, RoomsOK, Reached;
    ghost var m := v.Model();
    rooms := [];
    StartPlanning(sc, m, groups, qs.caps.ivs);
    for gi := 0 to |groups|
      invariant qs.Valid() && v.Model() == m
      invariant PlannedUpTo(sc, m, groups, gi, qs.plans, qs.Pools(), qs.ivs, rooms) && |qs.plans| == gi
      invariant RoomsUpTo(sc, m, groups, qs.caps.ivs, rooms, gi, |qs.ivs|) && |qs.ivs| + (|groups| - gi) <= qs.caps.ivs
      invariant |CombOf(m)| == |sc.dims|
      invariant forall k :: 0 <= k < gi ==> !Conditions.JudgeGroup(sc, CombOf(m), groups[k]).Invalid?
    {
      ghost var (a, ivs0, plans0) := (qs.Pools(), qs.ivs, qs.plans);
      ghost var room := qs.caps.ivs - |ivs0| - (|groups| - gi - 1);
      UpToFacts(sc, m, groups, gi, plans0, a, ivs0, rooms);
      RoomForNext(qs.caps, a, groups, gi, nAggs);
      var verdict, p := Plan(sc, v, groups[gi], qs, |groups| - gi - 1);
      assert v.Model() == m;
      if verdict.Invalid? {
        return false, rooms;
      }
      PlannedNext(sc, m, groups, gi, plans0, a, qs.Pools(), ivs0, qs.ivs, p, rooms, room);
      SlotsUsed(sc, m, groups[gi], room, ivs0, qs.ivs);
      RoomsNext(sc, m, groups, qs.caps.ivs, rooms, gi, |ivs0|, |qs.ivs|);
      rooms := rooms + [Some(room)];
      qs.plans := qs.plans + [p];
    }
    RoomsDone(sc, m, groups, qs.caps.ivs, rooms, |qs.ivs|);
    assert groups[..|groups|] == groups;
    ok := true;
  }

  lemma SlotsUsed(sc: Schema, m: ViewV, g: Group, room: nat, a: seq<Iv>, b: seq<Iv>)
    requires a <= b && Reached(sc, m, g, room, b[|a|..])
    requires |a| + room >= |b| && |b| <= |a| + InProduct(g)
    ensures RoomStep(sc, m, g, room, room + 1 + |a| - |b|)
  {
    hide GroupReaches, InProduct, SlotsTaken;
    assert |b[|a|..]| == |b| - |a|;
  }

  lemma StartPlanning(sc: Schema, m: ViewV, groups: seq<Group>, caps: nat)
    requires ViewOK(sc, m) && |groups| <= caps
    ensures PlannedUpTo(sc, m, groups, 0, [], PoolsV([], [], [], [], []), [], []) && |CombOf(m)| == |sc.dims|
    ensures RoomsUpTo(sc, m, groups, caps, [], 0, 0)
  {
  }

  lemma UpToFacts(sc: Schema, m: ViewV, groups: seq<Group>, i: nat, plans: seq<GroupPlan>, pl: PoolsV, ivs: seq<Iv>,
          rooms: seq<Option<nat>>)
    requires PlannedUpTo(sc, m, groups, i, plans, pl, ivs, rooms)
    ensures i <= |groups| && FilledBy(pl, groups, i) && Planner.PoolsWellFormed(CombOf(m), pl)
              && IvsOK(ivs, |m.base.rows|)
  {
  }
}
