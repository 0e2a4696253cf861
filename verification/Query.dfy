// Queries: plan, sweep the base intervals under the high-water mark, scan the delta.
module Query {
  import opened Decimal
  import Bitmap
  import opened Table
  import opened Engine
  import opened Oracle
  import opened Upsert
  import opened Scratch
  import Conditions
  import Planner
  import opened Expand
  import Reach
  import PlanGroup
  import opened Match
  import opened Live
  import opened PlanAll

  // ---- Planning with the budget ----

  // The sweep would visit more rows than allowed; 0 allows any number.
  ghost predicate TooWide(sc: Schema, m: ViewV, groups: seq<Group>, rooms: seq<Option<nat>>, maxScan: int) {
    maxScan > 0 && |ReachSet(sc, m, groups, rooms)| + |m.delta.rows| > maxScan
  }

  // Refused exactly when the rows the query reaches, and the delta, exceed the budget.
  method PlanGroups(sc: Schema, v: View, groups: seq<Group>, qs: QueryScratch, maxScan: int, ghost nAggs: nat)
    returns (r: PlanResult, ghost rooms: seq<Option<nat>>)
    requires v.Valid(sc) && FreshScratch(qs) && Room(qs.caps, groups, nAggs)
    modifies qs
    ensures qs.Valid()
    ensures r.NoGroups? <==> |groups| == 0
    ensures r.BadCond? <==> AnyInvalid(sc, CombOf(v.Model()), groups)
    ensures r.OverBudget? || r.Ready? ==>
              ByLo(qs.ivs) && Planned(sc, v.Model(), groups, qs.plans, qs.Pools(), qs.ivs)
              && IvsOK(qs.ivs, |v.base.rows|)
    ensures r.OverBudget? || r.Ready? ==> RoomsOK(sc, v.Model(), groups, qs.caps.ivs, rooms)
    ensures r.OverBudget? || r.Ready? ==> Covered(qs.ivs, |v.base.rows|) == ReachSet(sc, v.Model(), groups, rooms)
    ensures r.OverBudget? || r.Ready? ==> (r.OverBudget? <==> TooWide(sc, v.Model(), groups, rooms, maxScan))
  {
    hide View.Valid, Planned, PlannedUpTo, Covered, IvsOK, AnyInvalid, Room, Conditions.JudgeGroup, RoomsOK, ReachSet;
    rooms := [];
    if |groups| == 0 {
      NoneInvalid(sc, CombOf(v.Model()), groups);
      return PlanResult.NoGroups, rooms;
    }
    ghost var m := v.Model();
    var ok;
    ok, rooms := PlanLoop(sc, v, groups, qs, nAggs);
    assert v.Model() == m;
    if !ok {
      return BadCond, rooms;
    }
    ghost var ivs0 := qs.ivs;
    SortIvs(qs);
    ValidView(sc, v);
    AfterSort(sc, m, groups, qs.plans, qs.Pools(), ivs0, qs.ivs, rooms);
    if maxScan > 0 {
      var total := ScanRows(qs.ivs, |v.base.rows|, |v.delta.rows|);
      if total > maxScan {
        return OverBudget, rooms;
      }
    }
    r := Ready;
  }

  lemma NoneInvalid(sc: Schema, comb: Dicts, groups: seq<Group>)
    requires |groups| == 0
    ensures !AnyInvalid(sc, comb, groups)
  {
  }

  lemma ValidView(sc: Schema, v: View)
    requires v.Valid(sc)
    ensures ViewOK(sc, v.Model())
  {
  }

  lemma AfterSort(sc: Schema, m: ViewV, groups: seq<Group>, plans: seq<GroupPlan>, pl: PoolsV, ivs: seq<Iv>,
          ivs': seq<Iv>, rooms: seq<Option<nat>>)
    requires ViewOK(sc, m) && PlannedUpTo(sc, m, groups, |groups|, plans, pl, ivs, rooms) && SameIvs(ivs, ivs')
    ensures Planned(sc, m, groups, plans, pl, ivs') && IvsOK(ivs', |m.base.rows|)
    ensures Covered(ivs', |m.base.rows|) == ReachSet(sc, m, groups, rooms)
  {
    hide ViewOK, PlanGroup.PlanGood, Planner.PoolsWellFormed, CoverRow, FilledBy, Reach.Reaches, Covered, ReachSet,
      IvsOK;
    SortIvsOK(ivs, ivs', |m.base.rows|);
    forall r: nat ensures CoverRow(ivs, r) <==> CoverRow(ivs', r) {
      SortCovers(ivs, ivs', r);
    }
    assert groups[..|groups|] == groups;
    CoveredAre(sc, m, groups, rooms, ivs');
    WellFormedOK(CombOf(m), pl);
    forall i | 0 <= i < |groups| ensures PlanGroup.PlanGood(sc, m, groups[i], plans[i], pl, ivs') {
      PlanStays(sc, m, groups[i], plans[i], pl, pl, ivs, ivs');
    }
  }

  lemma WellFormedOK(comb: Dicts, pl: PoolsV)
    requires Planner.PoolsWellFormed(comb, pl)
    ensures Conditions.PoolsOK(pl)
  {
  }

  // ---- The query clock ----

  // Whether per-row expiry must be looked at at all, given the time now.
  method QueryClock(v: View, now: int) returns (baseExp: bool, deltaExp: bool, clock: int)
    ensures baseExp == (v.base.minExpire != 0 && v.base.minExpire <= now)
    ensures deltaExp == v.delta.hasExpiry
    ensures (v.base.minExpire != 0 || deltaExp) ==> clock == now
  {
    baseExp := v.base.minExpire != 0;
    deltaExp := v.delta.hasExpiry;
    clock := 0;
    if baseExp || deltaExp {
      clock := now;
      baseExp := baseExp && v.base.minExpire <= clock;
    }
  }

  // Skipping the checks never lets an expired row through.
  lemma ClockShortcut(sc: Schema, m: ViewV, now: int)
    requires ViewOK(sc, m)
    ensures !(m.base.minExpire != 0 && m.base.minExpire <= now) ==> forall r :: 0 <= r < |m.base.rows| ==>
              !Expired(m.base.rows[r].expire, now)
    ensures !m.delta.hasExpiry ==> forall r :: 0 <= r < |m.delta.rows| ==> !Expired(m.delta.rows[r].expire, now)
  {
    ExpiryShortcut(m.base.rows, now);
  }

  // ---- Which rows a query counts ----

  predicate BaseHit(sc: Schema, m: ViewV, groups: seq<Group>, now: int, r: nat) {
    r < |m.base.rows| && !Bitmap.BitGet(m.overridden, r) && !Expired(m.base.rows[r].expire, now)
    && MatchesAny(sc, Decode(CombOf(m), m.base.rows[r].ids), groups)
  }

  predicate DeltaHit(sc: Schema, m: ViewV, groups: seq<Group>, now: int, r: nat) {
    r < |m.delta.rows| && !Expired(m.delta.rows[r].expire, now)
    && MatchesAny(sc, Decode(CombOf(m), m.delta.rows[r].ids), groups)
  }

  // Every base row below n, filtered: the reference for the sweep.
  function BaseHits(sc: Schema, m: ViewV, groups: seq<Group>, now: int, n: nat): seq<Row> {
    if n == 0 then []
    else if BaseHit(sc, m, groups, now, n - 1) then BaseHits(sc, m, groups, now, n - 1) + [m.base.rows[n - 1]]
    else BaseHits(sc, m, groups, now, n - 1)
  }

  // Followed by every delta row below n, filtered.
  function Hits(sc: Schema, m: ViewV, groups: seq<Group>, now: int, n: nat): seq<Row> {
    if n == 0 then BaseHits(sc, m, groups, now, |m.base.rows|)
    else if DeltaHit(sc, m, groups, now, n - 1) then Hits(sc, m, groups, now, n - 1) + [m.delta.rows[n - 1]]
    else Hits(sc, m, groups, now, n - 1)
  }

  function AllHits(sc: Schema, m: ViewV, groups: seq<Group>, now: int): seq<Row> {
    Hits(sc, m, groups, now, |m.delta.rows|)
  }

  // Rows between two marks that no interval covers count for nothing.
  lemma {:induction false} GapHits(sc: Schema, m: ViewV, groups: seq<Group>, now: int, a: nat, b: nat)
    requires a <= b && forall r: nat :: a <= r < b ==> !BaseHit(sc, m, groups, now, r)
    ensures BaseHits(sc, m, groups, now, b) == BaseHits(sc, m, groups, now, a)
    decreases b
  {
    if a == b {
    } else {
      GapHits(sc, m, groups, now, a, b - 1);
    }
  }

  lemma HitIsCovered(sc: Schema, m: ViewV, groups: seq<Group>, plans: seq<GroupPlan>, pl: PoolsV, ivs: seq<Iv>,
          now: int, r: nat)
    requires Planned(sc, m, groups, plans, pl, ivs) && BaseHit(sc, m, groups, now, r)
    ensures CoverRow(ivs, r)
  {
    hide ViewOK, Planner.PoolsWellFormed, CoverRow, Matches, Decode;
    var t := Decode(CombOf(m), m.base.rows[r].ids);
    var g :| 0 <= g < |groups| && Matches(sc, t, groups[g]);
    assert PlanGroup.PlanGood(sc, m, groups[g], plans[g], pl, ivs);
    assert BaseMatches(sc, m, groups[g], r);
  }

  // Uncovered stretches: before interval i's own start, past the mark; and past them all.
  lemma SweepGap(sc: Schema, m: ViewV, groups: seq<Group>, plans: seq<GroupPlan>, pl: PoolsV, ivs: seq<Iv>,
          now: int, i: nat, r: nat)
    requires Planned(sc, m, groups, plans, pl, ivs) && ByLo(ivs) && i <= |ivs|
    requires HighWater(ivs, i) <= r && (i < |ivs| ==> r < ivs[i].lo)
    ensures !BaseHit(sc, m, groups, now, r)
  {
    hide Planned, BaseHit;
    HighWaterTop(ivs, i);
    forall k | 0 <= k < |ivs| ensures !(ivs[k].lo <= r < ivs[k].hi) {
      if k < i {
        assert ivs[k].hi <= HighWater(ivs, i);
      } else {
        assert ivs[i].lo <= ivs[k].lo;
      }
    }
    if BaseHit(sc, m, groups, now, r) {
      HitIsCovered(sc, m, groups, plans, pl, ivs, now, r);
      assert false;
    }
  }

  // A query's fixed inputs, once planned.
  datatype Sweep = Sweep(sc: Schema, groups: seq<Group>, plans: seq<GroupPlan>, pools: PoolsV, ivs: seq<Iv>,
          baseExp: bool, deltaExp: bool, clock: int)

  // Everything the row loops rely on: planning is done and the clock flags are exact.
  ghost predicate SweepOK(s: Sweep, m: ViewV, now: int) {
    && Planned(s.sc, m, s.groups, s.plans, s.pools, s.ivs)
    && ByLo(s.ivs) && IvsOK(s.ivs, |m.base.rows|)
    && (s.baseExp ==> s.clock == now) && (s.deltaExp ==> s.clock == now)
    && (!s.baseExp ==> forall r :: 0 <= r < |m.base.rows| ==> !Expired(m.base.rows[r].expire, now))
    && (!s.deltaExp ==> forall r :: 0 <= r < |m.delta.rows| ==> !Expired(m.delta.rows[r].expire, now))
  }

  // One base row of the sweep: shadowed, expired, then the groups.
  method TestBase(s: Sweep, v: View, ghost now: int, r: nat) returns (hit: bool)
    requires v.Valid(s.sc) && SweepOK(s, v.Model(), now) && r < |v.base.rows|
    ensures hit <==> BaseHit(s.sc, v.Model(), s.groups, now, r)
  {
    hide View.Valid, Planned, MatchesAny, Decode, Bitmap.BitGet, IvsOK, ByLo;
    if Bitmap.BitGet(v.overridden, r) {
      return false; // its tuple lives in delta now
    }
    if s.baseExp {
      if Expired(v.base.rows[r].expire, s.clock) {
        return false;
      }
    }
    hit := AnyBase(s.sc, v, s.groups, s.plans, s.pools, s.ivs, r);
  }

  method TestDelta(s: Sweep, v: View, ghost now: int, r: nat) returns (hit: bool)
    requires v.Valid(s.sc) && SweepOK(s, v.Model(), now) && r < |v.delta.rows|
    ensures hit <==> DeltaHit(s.sc, v.Model(), s.groups, now, r)
  {
    hide View.Valid, Planned, MatchesAny, Decode, IvsOK, ByLo;
    if s.deltaExp {
      if Expired(v.delta.rows[r].expire, s.clock) {
        return false;
      }
    }
    hit := AnyDelta(s.sc, v, s.groups, s.plans, s.pools, s.ivs, r);
  }

  // Entering interval i: nothing was missed between the mark and its first new row.
  lemma EnterInterval(s: Sweep, m: ViewV, now: int, i: nat)
    requires SweepOK(s, m, now) && i < |s.ivs|
    ensures var (done, lo) := (HighWater(s.ivs, i), s.ivs[i].lo);
            var from := if lo < done then done else lo;
            BaseHits(s.sc, m, s.groups, now, from) == BaseHits(s.sc, m, s.groups, now, done)
    ensures s.ivs[i].lo < s.ivs[i].hi <= |m.base.rows|
  {
    hide Planned, BaseHits, BaseHit;
    var (done, lo) := (HighWater(s.ivs, i), s.ivs[i].lo);
    if done <= lo {
      forall r: nat | done <= r < lo ensures !BaseHit(s.sc, m, s.groups, now, r) {
        SweepGap(s.sc, m, s.groups, s.plans, s.pools, s.ivs, now, i, r);
      }
      GapHits(s.sc, m, s.groups, now, done, lo);
    }
  }

  lemma LeaveIntervals(s: Sweep, m: ViewV, now: int)
    requires SweepOK(s, m, now)
    ensures HighWater(s.ivs, |s.ivs|) <= |m.base.rows|
    ensures BaseHits(s.sc, m, s.groups, now, |m.base.rows|)
            == BaseHits(s.sc, m, s.groups, now, HighWater(s.ivs, |s.ivs|))
  {
    hide Planned, BaseHits, BaseHit;
    var n := |s.ivs|;
    HighWaterTop(s.ivs, n);
    forall r: nat | HighWater(s.ivs, n) <= r < |m.base.rows| ensures !BaseHit(s.sc, m, s.groups, now, r) {
      SweepGap(s.sc, m, s.groups, s.plans, s.pools, s.ivs, now, n, r);
    }
    GapHits(s.sc, m, s.groups, now, HighWater(s.ivs, n), |m.base.rows|);
  }

  // ---- The sweep ----

  // Rows visited so far: in ascending order, so none twice.
  ghost predicate Once(visited: seq<nat>) {
    forall i, j :: 0 <= i < j < |visited| ==> visited[i] < visited[j]
  }

  // After i intervals, and row by row inside the next one.
  ghost predicate Swept(ivs: seq<Iv>, i: nat, upTo: nat, visited: seq<nat>)
    requires i <= |ivs|
  {
    && Once(visited)
    && (forall r: nat :: r in visited ==> r < upTo)
    && (forall r: nat :: r in visited <==>
         CoverRow(ivs[..i], r) || (i < |ivs| && HighWater(ivs, i) <= r && ivs[i].lo <= r < upTo))
  }

  lemma SweptStart(ivs: seq<Iv>)
    ensures Swept(ivs, 0, 0, [])
  {
  }

  // Interval i begins at from, where no row at or above the mark was visited.
  lemma SweptEnter(ivs: seq<Iv>, i: nat, visited: seq<nat>)
    requires i < |ivs| && Swept(ivs, i, HighWater(ivs, i), visited)
    ensures var from := if ivs[i].lo < HighWater(ivs, i) then HighWater(ivs, i) else ivs[i].lo;
            Swept(ivs, i, from, visited)
  {
  }

  lemma SweptRow(ivs: seq<Iv>, i: nat, r: nat, visited: seq<nat>)
    requires i < |ivs| && Swept(ivs, i, r, visited) && HighWater(ivs, i) <= r && ivs[i].lo <= r
    ensures Swept(ivs, i, r + 1, visited + [r])
  {
    hide CoverRow, HighWater, Once;
    var longer := visited + [r];
    forall x: nat ensures x in longer <==> x in visited || x == r {
    }
    assert Once(longer) by {
      OnceMore(visited, r);
    }
  }

  lemma OnceMore(visited: seq<nat>, r: nat)
    requires Once(visited) && forall x :: x in visited ==> x < r
    ensures Once(visited + [r])
  {
    forall i | 0 <= i < |visited| ensures visited[i] < r {
      assert visited[i] in visited;
    }
  }

  lemma SweptLeave(ivs: seq<Iv>, i: nat, visited: seq<nat>)
    requires i < |ivs| && ByLo(ivs) && ivs[i].hi > HighWater(ivs, i) && Swept(ivs, i, ivs[i].hi, visited)
    ensures Swept(ivs, i + 1, HighWater(ivs, i + 1), visited)
  {
    forall r: nat ensures r in visited <==> CoverRow(ivs[..i + 1], r) {
      CoverStep(ivs, i, r);
    }
  }

  lemma SweptSkip(ivs: seq<Iv>, i: nat, visited: seq<nat>)
    requires i < |ivs| && ByLo(ivs) && ivs[i].hi <= HighWater(ivs, i) && Swept(ivs, i, HighWater(ivs, i), visited)
    ensures Swept(ivs, i + 1, HighWater(ivs, i + 1), visited)
  {
    forall r: nat ensures r in visited <==> CoverRow(ivs[..i + 1], r) {
      CoverStep(ivs, i, r);
    }
  }

  lemma {:induction false} OnceCard(visited: seq<nat>, s: set<nat>)
    requires Once(visited) && forall r: nat :: r in visited <==> r in s
    ensures |visited| == |s|
  {
    if |visited| == 0 {
      assert s == {};
    } else {
      var n := |visited| - 1;
      var init := visited[..n];
      assert visited == init + [visited[n]];
      OnceCard(init, s - {visited[n]});
    }
  }

  // Each of these rows once, and no other.
  ghost predicate Visits(visited: seq<nat>, reached: set<nat>) {
    Once(visited) && |visited| == |reached| && forall r: nat :: r in visited <==> r in reached
  }

  // The rows visited are the covered ones, so as many as the budget counted.
  lemma VisitsAreCovered(ivs: seq<Iv>, n: nat, visited: seq<nat>)
    requires IvsOK(ivs, n) && Swept(ivs, |ivs|, HighWater(ivs, |ivs|), visited)
    ensures Visits(visited, Covered(ivs, n))
  {
    assert ivs[..|ivs|] == ivs;
    OnceCard(visited, Covered(ivs, n));
  }

  lemma VisitCount(visited: seq<nat>, reached: set<nat>)
    requires Visits(visited, reached)
    ensures |visited| == |reached|
  {
  }

  // ---- QueryGroups ----

  function SumRows(rows: seq<Row>, i: nat): int {
    if |rows| == 0 then 0 else SumRows(rows[..|rows| - 1], i) + Metric(EntryOf(rows[|rows| - 1]), i)
  }

  function Sums(rows: seq<Row>, n: nat): (s: seq<int>)
    ensures |s| == n
  {
    seq(n, i requires 0 <= i < n => SumRows(rows, i))
  }

  method AddRow(dst: seq<int>, row: Row) returns (r: seq<int>)
    requires |dst| == |row.mets|
    ensures |r| == |dst| && forall i :: 0 <= i < |r| ==> r[i] == dst[i] + row.mets[i]
  {
    r := dst;
    for m := 0 to |dst|
      invariant |r| == |dst| && forall i :: 0 <= i < |r| ==> r[i] == dst[i] + (if i < m then row.mets[i] else 0)
    {
      r := r[m := r[m] + row.mets[m]];
    }
  }

  lemma SumsAdd(rows: seq<Row>, row: Row, n: nat, a: seq<int>, b: seq<int>)
    requires a == Sums(rows, n) && |row.mets| == n && |b| == n && forall i :: 0 <= i < n ==> b[i] == a[i] + row.mets[i]
    ensures b == Sums(rows + [row], n)
  {
    assert (rows + [row])[..|rows|] == rows;
  }

  method SumBase(s: Sweep, v: View, ghost now: int) returns (dst: seq<int>, ghost visited: seq<nat>)
    requires v.Valid(s.sc) && SweepOK(s, v.Model(), now)
    ensures dst == Sums(BaseHits(s.sc, v.Model(), s.groups, now, |v.base.rows|), |s.sc.metrics|)
    ensures Swept(s.ivs, |s.ivs|, HighWater(s.ivs, |s.ivs|), visited)
  {
    hide View.Valid, SweepOK, BaseHits, BaseHit, Sums, Swept;
    ghost var m := v.Model();
    dst := seq(|s.sc.metrics|, _ => 0);
    NoHits(s, m, now);
    var done := 0;
    visited := [];
    SweptStart(s.ivs);
    for i := 0 to |s.ivs|
      invariant done == HighWater(s.ivs, i)
      invariant dst == Sums(BaseHits(s.sc, m, s.groups, now, done), |s.sc.metrics|)
      invariant Swept(s.ivs, i, done, visited)
    {
      var lo, hi := s.ivs[i].lo, s.ivs[i].hi;
      EnterInterval(s, m, now, i);
      SweptEnter(s.ivs, i, visited);
      if lo < done {
        lo := done;
      }
      if hi <= done {
        SweptSkipAt(s, m, now, i, visited);
        continue;
      }
      for r := lo to hi
        invariant dst == Sums(BaseHits(s.sc, m, s.groups, now, r), |s.sc.metrics|)
        invariant Swept(s.ivs, i, r, visited)
      {
        var hit := TestBase(s, v, now, r);
        HitsStep(s, m, now, r);
        if hit {
          ghost var was := dst;
          dst := AddRow(dst, v.base.rows[r]);
          SumsAdd(BaseHits(s.sc, m, s.groups, now, r), v.base.rows[r], |s.sc.metrics|, was, dst);
        }
        SweptRow(s.ivs, i, r, visited);
        visited := visited + [r];
      }
      SweptLeaveAt(s, m, now, i, visited);
      done := hi;
    }
    LeaveIntervals(s, m, now);
  }

  lemma NoHits(s: Sweep, m: ViewV, now: int)
    ensures seq(|s.sc.metrics|, _ => 0) == Sums(BaseHits(s.sc, m, s.groups, now, 0), |s.sc.metrics|)
  {
  }

  lemma SweptSkipAt(s: Sweep, m: ViewV, now: int, i: nat, visited: seq<nat>)
    requires SweepOK(s, m, now) && i < |s.ivs| && s.ivs[i].hi <= HighWater(s.ivs, i)
    requires Swept(s.ivs, i, HighWater(s.ivs, i), visited)
    ensures Swept(s.ivs, i + 1, HighWater(s.ivs, i + 1), visited)
  {
    hide Planned, IvsOK, Swept;
    SweptSkip(s.ivs, i, visited);
  }

  lemma SweptLeaveAt(s: Sweep, m: ViewV, now: int, i: nat, visited: seq<nat>)
    requires SweepOK(s, m, now) && i < |s.ivs| && s.ivs[i].hi > HighWater(s.ivs, i)
               && Swept(s.ivs, i, s.ivs[i].hi, visited)
    ensures Swept(s.ivs, i + 1, HighWater(s.ivs, i + 1), visited)
  {
    hide Planned, IvsOK, Swept;
    SweptLeave(s.ivs, i, visited);
  }

  lemma HitsStep(s: Sweep, m: ViewV, now: int, r: nat)
    requires SweepOK(s, m, now) && r < |m.base.rows|
    ensures var hits := BaseHits(s.sc, m, s.groups, now, r);
            BaseHits(s.sc, m, s.groups, now, r + 1)
            == if BaseHit(s.sc, m, s.groups, now, r) then hits + [m.base.rows[r]] else hits
    ensures |m.base.rows[r].mets| == |s.sc.metrics|
  {
    hide BaseHit, Planner.PoolsWellFormed, PlanGroup.PlanGood, Keyed, Scalars, DeltaOK, Shadowing;
  }

  lemma DeltaStep(s: Sweep, m: ViewV, now: int, r: nat)
    requires SweepOK(s, m, now) && r < |m.delta.rows|
    ensures var hits := Hits(s.sc, m, s.groups, now, r);
            Hits(s.sc, m, s.groups, now, r + 1)
            == if DeltaHit(s.sc, m, s.groups, now, r) then hits + [m.delta.rows[r]] else hits
    ensures |m.delta.rows[r].mets| == |s.sc.metrics|
  {
    hide DeltaHit, BaseHits, Planner.PoolsWellFormed, PlanGroup.PlanGood, Keyed, Scalars, DeltaOK, Shadowing;
  }

  method SumDelta(s: Sweep, v: View, ghost now: int, dst0: seq<int>) returns (dst: seq<int>)
    requires v.Valid(s.sc) && SweepOK(s, v.Model(), now)
    requires dst0 == Sums(BaseHits(s.sc, v.Model(), s.groups, now, |v.base.rows|), |s.sc.metrics|)
    ensures dst == Sums(AllHits(s.sc, v.Model(), s.groups, now), |s.sc.metrics|)
  {
    hide View.Valid, SweepOK, BaseHits, DeltaHit, Sums;
    ghost var m := v.Model();
    dst := dst0;
    for r := 0 to |v.delta.rows|
      invariant dst == Sums(Hits(s.sc, m, s.groups, now, r), |s.sc.metrics|)
    {
      var hit := TestDelta(s, v, now, r);
      DeltaStep(s, m, now, r);
      if hit {
        ghost var was := dst;
        dst := AddRow(dst, v.delta.rows[r]);
        SumsAdd(Hits(s.sc, m, s.groups, now, r), v.delta.rows[r], |s.sc.metrics|, was, dst);
      }
    }
  }

  // ---- What the hits are ----

  predicate IsHit(sc: Schema, m: ViewV, groups: seq<Group>, now: int, s: Src) {
    match s
    case B(r) => BaseHit(sc, m, groups, now, r)
    case D(r) => DeltaHit(sc, m, groups, now, r)
  }

  // A row of the list comes from a live source that hits.
  ghost predicate FromHit(sc: Schema, m: ViewV, groups: seq<Group>, now: int, n: nat, x: Row) {
    exists s: Src :: IsHit(sc, m, groups, now, s) && IsLive(m, s) && (s.D? ==> s.r < n) && RowOf(m, s) == x
  }

  ghost predicate HitsOnly(sc: Schema, m: ViewV, groups: seq<Group>, now: int, n: nat) {
    forall x :: x in Hits(sc, m, groups, now, n) ==> FromHit(sc, m, groups, now, n, x)
  }

  lemma {:induction false} BaseHitsFrom(sc: Schema, m: ViewV, groups: seq<Group>, now: int, n: nat)
    requires ViewOK(sc, m)
    ensures forall x :: x in BaseHits(sc, m, groups, now, n) ==>
              exists r: nat :: r < n && BaseHit(sc, m, groups, now, r) && m.base.rows[r] == x
    ensures forall r: nat :: r < n && BaseHit(sc, m, groups, now, r) ==>
              m.base.rows[r] in BaseHits(sc, m, groups, now, n)
    ensures UniqueIds(BaseHits(sc, m, groups, now, n))
  {
    hide Keyed, Scalars, MatchesAny, Decode, DeltaOK, Shadowing, RowsIn, Bitmap.BitGet;
    if n == 0 {
    } else {
      BaseHitsFrom(sc, m, groups, now, n - 1);
      var was := BaseHits(sc, m, groups, now, n - 1);
      forall x | x in was ensures n <= |m.base.rows| ==> x.ids != m.base.rows[n - 1].ids {
        var r: nat :| r < n - 1 && BaseHit(sc, m, groups, now, r) && m.base.rows[r] == x;
      }
      forall x
        ensures x in BaseHits(sc, m, groups, now, n) <==>
                  x in was || (BaseHit(sc, m, groups, now, n - 1) && x == m.base.rows[n - 1])
      {
      }
    }
  }

  lemma {:induction false} HitsFrom(sc: Schema, m: ViewV, groups: seq<Group>, now: int, n: nat)
    requires ViewOK(sc, m)
    ensures HitsOnly(sc, m, groups, now, n)
    ensures forall s: Src :: IsHit(sc, m, groups, now, s) && (s.D? ==> s.r < n) && (s.B? ==> s.r < |m.base.rows|) ==>
              RowOf(m, s) in Hits(sc, m, groups, now, n)
    ensures UniqueIds(Hits(sc, m, groups, now, n))
  {
    hide ViewOK, MatchesAny, Decode, BaseHits, Bitmap.BitGet;
    if n == 0 {
      BaseHitsFrom(sc, m, groups, now, |m.base.rows|);
      forall x | x in BaseHits(sc, m, groups, now, |m.base.rows|) ensures FromHit(sc, m, groups, now, 0, x) {
        var r: nat :| r < |m.base.rows| && BaseHit(sc, m, groups, now, r) && m.base.rows[r] == x;
        assert IsHit(sc, m, groups, now, B(r)) && IsLive(m, B(r));
      }
    } else {
      HitsFrom(sc, m, groups, now, n - 1);
      HitsNext(sc, m, groups, now, n - 1);
    }
  }

  lemma HitsNext(sc: Schema, m: ViewV, groups: seq<Group>, now: int, n: nat)
    requires ViewOK(sc, m)
    requires HitsOnly(sc, m, groups, now, n)
    requires UniqueIds(Hits(sc, m, groups, now, n))
    ensures HitsOnly(sc, m, groups, now, n + 1)
    ensures UniqueIds(Hits(sc, m, groups, now, n + 1))
  {
    hide ViewOK, MatchesAny, Decode, BaseHits, Bitmap.BitGet, BaseHit;
    var before := Hits(sc, m, groups, now, n);
    forall x | x in before
      ensures FromHit(sc, m, groups, now, n + 1, x)
                && (DeltaHit(sc, m, groups, now, n) ==> x.ids != m.delta.rows[n].ids)
    {
      assert FromHit(sc, m, groups, now, n, x);
      var s: Src :| IsHit(sc, m, groups, now, s) && IsLive(m, s) && (s.D? ==> s.r < n) && RowOf(m, s) == x;
      if DeltaHit(sc, m, groups, now, n) {
        LiveDistinct(sc, m, s, D(n));
      }
    }
    if DeltaHit(sc, m, groups, now, n) {
      assert IsHit(sc, m, groups, now, D(n)) && IsLive(m, D(n));
    }
  }

  // The counted rows list the oracle's selection, each entry once.
  lemma HitsAreSelected(sc: Schema, m: ViewV, groups: seq<Group>, now: int)
    requires ViewOK(sc, m)
    ensures DictsOK(sc, CombOf(m))
    ensures RowsIn(sc, CombOf(m), AllHits(sc, m, groups, now)) && UniqueIds(AllHits(sc, m, groups, now))
    ensures MapOf(CombOf(m), AllHits(sc, m, groups, now)) == Selected(sc, Abs(m), groups, now)
  {
    hide ViewOK, MatchesAny, Decode, Hits, MapOf, Abs, InRange;
    var rows := AllHits(sc, m, groups, now);
    var sel := Selected(sc, Abs(m), groups, now);
    HitsFrom(sc, m, groups, now, |m.delta.rows|);
    assert DictsOK(sc, CombOf(m)) by {
      CombOK(sc, m);
    }
    forall r | 0 <= r < |rows|
      ensures InRange(CombOf(m), rows[r].ids) && |rows[r].mets| == |sc.metrics|
      ensures Decode(CombOf(m), rows[r].ids) in sel && sel[Decode(CombOf(m), rows[r].ids)] == EntryOf(rows[r])
    {
      assert rows[r] in rows;
      HitSelected(sc, m, groups, now, rows[r]);
    }
    forall t | t in sel ensures exists r :: 0 <= r < |rows| && Decode(CombOf(m), rows[r].ids) == t {
      var s := LiveFind(sc, m, t);
      LiveAbs(sc, m, s);
      assert IsHit(sc, m, groups, now, s);
      assert RowOf(m, s) in rows;
    }
    MapOfLists(sc, CombOf(m), rows);
    ListsUnique(CombOf(m), rows, MapOf(CombOf(m), rows), sel);
  }

  lemma CombOK(sc: Schema, m: ViewV)
    requires ViewOK(sc, m)
    ensures DictsOK(sc, CombOf(m))
  {
  }

  lemma HitSelected(sc: Schema, m: ViewV, groups: seq<Group>, now: int, x: Row)
    requires ViewOK(sc, m) && FromHit(sc, m, groups, now, |m.delta.rows|, x)
    ensures InRange(CombOf(m), x.ids) && |x.mets| == |sc.metrics|
    ensures var t := Decode(CombOf(m), x.ids);
            t in Selected(sc, Abs(m), groups, now) && Selected(sc, Abs(m), groups, now)[t] == EntryOf(x)
  {
    hide ViewOK, MatchesAny, Decode, MapOf, Abs, InRange;
    var s: Src :| IsHit(sc, m, groups, now, s) && IsLive(m, s) && RowOf(m, s) == x;
    LiveInRange(sc, m, s);
    LiveAbs(sc, m, s);
  }

  // Summing rows is summing the map they denote.
  lemma {:induction false} SumRowsIsSumOf(sc: Schema, ds: Dicts, rows: seq<Row>, i: nat)
    requires DictsOK(sc, ds) && RowsIn(sc, ds, rows) && UniqueIds(rows)
    ensures SumRows(rows, i) == SumOf(MapOf(ds, rows), i)
  {
    hide DictsOK, InRange, Decode;
    if |rows| == 0 {
    } else {
      var n := |rows| - 1;
      SumRowsIsSumOf(sc, ds, rows[..n], i);
      LastIsNew(sc, ds, rows);
      SumInsert(MapOf(ds, rows[..n]), Decode(ds, rows[n].ids), EntryOf(rows[n]), i);
    }
  }

  lemma LastIsNew(sc: Schema, ds: Dicts, rows: seq<Row>)
    requires DictsOK(sc, ds) && RowsIn(sc, ds, rows) && UniqueIds(rows) && |rows| > 0
    ensures Decode(ds, rows[|rows| - 1].ids) !in MapOf(ds, rows[..|rows| - 1])
  {
    hide DictsOK, InRange, Decode, MapOf;
    var n := |rows| - 1;
    var t := Decode(ds, rows[n].ids);
    if t in MapOf(ds, rows[..n]) {
      var r := MapOfKey(ds, rows[..n], t);
      DecodeInjective(sc, ds, rows[r].ids, rows[n].ids);
      assert false;
    }
  }

  // ---- The entry point ----

  datatype Answer<T> = NoGroups | BadCondition | ScanBudget | Result(value: T)

  ghost function SumsOf(m: Contents, n: nat): seq<int> {
    seq(n, i requires 0 <= i < n => SumOf(m, i))
  }

  lemma SumsAreOracle(sc: Schema, m: ViewV, groups: seq<Group>, now: int)
    requires ViewOK(sc, m)
    ensures Sums(AllHits(sc, m, groups, now), |sc.metrics|) == SumsOf(Selected(sc, Abs(m), groups, now), |sc.metrics|)
  {
    hide ViewOK, Selected, AllHits, Abs, MapOf, SumRows, DictsOK, RowsIn;
    HitsAreSelected(sc, m, groups, now);
    forall i: nat | i < |sc.metrics|
      ensures SumRows(AllHits(sc, m, groups, now), i) == SumOf(Selected(sc, Abs(m), groups, now), i)
    {
      SumRowsIsSumOf(sc, CombOf(m), AllHits(sc, m, groups, now), i);
    }
  }

  // ---- Refusals ----

  ghost predicate RoomsFor(sc: Schema, m: ViewV, groups: seq<Group>, nAggs: nat, prev: Caps, rooms: seq<Option<nat>>) {
    RoomsOK(sc, m, groups, CapsFor(groups, nAggs, prev).ivs, rooms)
  }

  // Refused exactly when there is no group, a malformed condition decides, or too many
  // rows would be visited.
  ghost predicate Decided<T>(sc: Schema, m: ViewV, groups: seq<Group>, nAggs: nat, prev: Caps, maxScan: int,
          rooms: seq<Option<nat>>, r: Answer<T>)
  {
    && (r.NoGroups? <==> |groups| == 0)
    && (r.BadCondition? <==> AnyInvalid(sc, CombOf(m), groups))
    && (r.ScanBudget? || r.Result? ==> RoomsFor(sc, m, groups, nAggs, prev, rooms))
    && (r.ScanBudget? || r.Result? ==> (r.ScanBudget? <==> TooWide(sc, m, groups, rooms, maxScan)))
  }

  // Two answers to one query agree on the refusal.
  lemma DecidedOnce<T, U>(sc: Schema, m: ViewV, groups: seq<Group>, nAggs: nat, prev: Caps, maxScan: int,
          rooms: seq<Option<nat>>, r: Answer<T>, rooms': seq<Option<nat>>, r': Answer<U>)
    requires Decided(sc, m, groups, nAggs, prev, maxScan, rooms, r)
    requires Decided(sc, m, groups, nAggs, prev, maxScan, rooms', r')
    ensures r.ScanBudget? <==> r'.ScanBudget?
    ensures r.Result? ==> ReachSet(sc, m, groups, rooms) == ReachSet(sc, m, groups, rooms')
  {
    hide AnyInvalid, RoomsOK, CapsFor, ReachSet;
    if r.ScanBudget? || r.Result? {
      RoomsUnique(sc, m, groups, CapsFor(groups, nAggs, prev).ivs, rooms, rooms');
    }
  }

  // With a slot for every combination, or no list, room decides nothing.
  lemma RoomyReachesAll(sc: Schema, m: ViewV, groups: seq<Group>, nAggs: nat, prev: Caps, rooms: seq<Option<nat>>)
    requires RoomsFor(sc, m, groups, nAggs, prev, rooms)
    requires ProductAll(groups) <= CapsFor(groups, nAggs, prev).ivs || CountAll(groups, InConds) == 0
    ensures ReachSet(sc, m, groups, rooms) == ReachSet(sc, m, groups, Reach.Unlimited(|groups|))
  {
    hide Reach.Reaches, RoomsOK, CapsFor, ProductAll, CountAll;
    forall r: nat
      ensures Reach.Reaches(sc, m, groups, rooms, r) <==> Reach.Reaches(sc, m, groups, Reach.Unlimited(|groups|), r)
    {
      RoomDecidesNothing(sc, m, groups, CapsFor(groups, nAggs, prev).ivs, rooms, r);
    }
  }

  // No group starves on the stack: a query routed there reaches what it would reach with
  // slots without end.
  lemma StackNeverStarves(sc: Schema, m: ViewV, groups: seq<Group>, nAggs: nat, prev: Caps, rooms: seq<Option<nat>>)
    requires FitsStack(ShapeOf(groups, nAggs)) && RoomsFor(sc, m, groups, nAggs, prev, rooms)
    ensures ReachSet(sc, m, groups, rooms) == ReachSet(sc, m, groups, Reach.Unlimited(|groups|))
  {
    hide ReachSet, RoomsFor;
    if CountAll(groups, InConds) > 0 {
      DemandIsProduct(groups);
    }
    RoomyReachesAll(sc, m, groups, nAggs, prev, rooms);
  }

  // There the refusal is told from the query and the table alone.
  lemma StackDecided<T>(sc: Schema, m: ViewV, groups: seq<Group>, nAggs: nat, prev: Caps, maxScan: int,
          rooms: seq<Option<nat>>, r: Answer<T>)
    requires Decided(sc, m, groups, nAggs, prev, maxScan, rooms, r) && FitsStack(ShapeOf(groups, nAggs))
    ensures r.ScanBudget? <==>
              |groups| > 0 && !AnyInvalid(sc, CombOf(m), groups)
                && TooWide(sc, m, groups, Reach.Unlimited(|groups|), maxScan)
  {
    hide ReachSet, RoomsFor, AnyInvalid, FitsStack;
    if r.ScanBudget? || r.Result? {
      StackNeverStarves(sc, m, groups, nAggs, prev, rooms);
    }
  }

  // ---- How far the slots of any workspace go ----

  lemma SlotsAre(groups: seq<Group>, nAggs: nat, prev: Caps)
    ensures CapsFor(groups, nAggs, prev).ivs == SlotsIn(groups, FitsStack(ShapeOf(groups, nAggs)), prev.ivs)
  {
    hide CountAll, DemandAll;
  }

  // A query whose list lengths multiply and add up to no more than one slot for every group
  // and 4096 besides reaches all it would reach with slots without end, wherever it runs.
  lemma SmallReachesAll(sc: Schema, m: ViewV, groups: seq<Group>, nAggs: nat, prev: Caps, rooms: seq<Option<nat>>)
    requires RoomsFor(sc, m, groups, nAggs, prev, rooms) && ProductAll(groups) <= |groups| + 4096
    ensures ReachSet(sc, m, groups, rooms) == ReachSet(sc, m, groups, Reach.Unlimited(|groups|))
  {
    hide ReachSet, RoomsFor, CapsFor, ProductAll, CountAll, DemandAll;
    SlotsAre(groups, nAggs, prev);
    if FitsStack(ShapeOf(groups, nAggs)) {
      StackNeverStarves(sc, m, groups, nAggs, prev, rooms);
    } else {
      RoomyReachesAll(sc, m, groups, nAggs, prev, rooms);
    }
  }

  // So its refusal, too, is told from the query and the table alone.
  lemma SmallDecided<T>(sc: Schema, m: ViewV, groups: seq<Group>, nAggs: nat, prev: Caps, maxScan: int,
          rooms: seq<Option<nat>>, r: Answer<T>)
    requires Decided(sc, m, groups, nAggs, prev, maxScan, rooms, r) && ProductAll(groups) <= |groups| + 4096
    ensures r.ScanBudget? <==>
              |groups| > 0 && !AnyInvalid(sc, CombOf(m), groups)
                && TooWide(sc, m, groups, Reach.Unlimited(|groups|), maxScan)
  {
    hide ReachSet, RoomsFor, AnyInvalid, ProductAll;
    if r.ScanBudget? || r.Result? {
      SmallReachesAll(sc, m, groups, nAggs, prev, rooms);
    }
  }

  // Slots the first n groups took: each had its room, and left the next one less by what it
  // took beyond the slot it was owed.
  ghost predicate Shared(sc: Schema, m: ViewV, groups: seq<Group>, rooms: seq<Option<nat>>, first: nat, taken: seq<nat>)
  {
    && |taken| == |rooms| == |groups|
    && (forall i :: 0 <= i < |rooms| ==> rooms[i].Some? && rooms[i].value + Total(taken[..i]) == first + i)
    && forall i :: 0 <= i < |rooms| - 1 ==> Reach.SlotsTaken(sc, m, groups[i], rooms[i], taken[i])
  }

  ghost function Total(s: seq<nat>): nat {
    if |s| == 0 then 0 else Total(s[..|s| - 1]) + s[|s| - 1]
  }

  // Exactly what every group is left: of the workspace's slots all but one for each later
  // group, less what the groups before took. A fresh pool leaves the first group of a query
  // with lists 4097, the stack 17 less the number of groups.
  lemma SlotsLeft(sc: Schema, m: ViewV, groups: seq<Group>, nAggs: nat, prev: Caps, rooms: seq<Option<nat>>)
    returns (taken: seq<nat>)
    requires RoomsFor(sc, m, groups, nAggs, prev, rooms) && |groups| > 0
    ensures var slots := SlotsIn(groups, FitsStack(ShapeOf(groups, nAggs)), prev.ivs);
            slots >= |groups| && Shared(sc, m, groups, rooms, slots + 1 - |groups|, taken)
    ensures prev.ivs == 0 && CountAll(groups, InConds) > 0 ==>
              rooms[0] == Some(if FitsStack(ShapeOf(groups, nAggs)) then 17 - |groups| else 4097)
  {
    hide RoomStep, CapsFor, CountAll, DemandAll, TookAt, Total, Reach.SlotsTaken;
    SlotsAre(groups, nAggs, prev);
    var caps := CapsFor(groups, nAggs, prev).ivs;
    taken := seq(|groups|, (i: nat) => TookAt(rooms, i));
    forall i: nat | i < |groups|
      ensures rooms[i].value + Total(taken[..i]) == caps + 1 - |groups| + i
      ensures i + 1 < |groups| ==> Reach.SlotsTaken(sc, m, groups[i], rooms[i], taken[i])
    {
      RoomTotal(sc, m, groups, caps, rooms, taken, i);
      if i + 1 < |groups| {
        RoomTaken(sc, m, groups, caps, rooms, i);
      }
    }
  }

  // What group i took: its room and the slot it was owed, less the next group's room.
  function TookAt(rooms: seq<Option<nat>>, i: nat): nat {
    if i + 1 < |rooms| && rooms[i].Some? && rooms[i + 1].Some? && rooms[i].value + 1 >= rooms[i + 1].value
    then rooms[i].value + 1 - rooms[i + 1].value else 0
  }

  lemma RoomTaken(sc: Schema, m: ViewV, groups: seq<Group>, caps: nat, rooms: seq<Option<nat>>, i: nat)
    requires RoomsOK(sc, m, groups, caps, rooms) && i + 1 < |groups|
    ensures Reach.SlotsTaken(sc, m, groups[i], rooms[i], TookAt(rooms, i))
    ensures TookAt(rooms, i) as int == rooms[i].value + 1 - rooms[i + 1].value
  {
    hide Reach.SlotsTaken, InProduct;
    assert RoomStep(sc, m, groups[i], rooms[i].value, rooms[i + 1].value);
  }

  lemma {:induction false} RoomTotal(sc: Schema, m: ViewV, groups: seq<Group>, caps: nat, rooms: seq<Option<nat>>,
          taken: seq<nat>, i: nat)
    requires RoomsOK(sc, m, groups, caps, rooms) && i < |groups| == |taken|
    requires forall k :: 0 <= k < |taken| ==> taken[k] == TookAt(rooms, k)
    ensures rooms[i].value + Total(taken[..i]) == caps + 1 - |groups| + i
  {
    hide RoomStep, TookAt;
    if i == 0 {
    } else {
      RoomTotal(sc, m, groups, caps, rooms, taken, i - 1);
      RoomTaken(sc, m, groups, caps, rooms, i - 1);
      assert taken[..i][..i - 1] == taken[..i - 1];
    }
  }

  lemma FreshIs(qs: QueryScratch)
    requires qs.Valid() && qs.ivs == [] && qs.plans == [] && qs.Pools() == PoolsV([], [], [], [], [])
    ensures FreshScratch(qs)
  {
  }

  lemma ContentsAre(v: View)
    ensures v.Contents() == Abs(v.Model())
  {
  }

  // Planned and within budget: the sweep may start.
  method Prepare(sc: Schema, v: View, groups: seq<Group>, qs: QueryScratch, now: int) returns (s: Sweep)
    requires v.Valid(sc) && qs.Valid() && ByLo(qs.ivs) && IvsOK(qs.ivs, |v.base.rows|)
    requires Planned(sc, v.Model(), groups, qs.plans, qs.Pools(), qs.ivs)
    ensures s.sc == sc && s.groups == groups && s.ivs == qs.ivs && SweepOK(s, v.Model(), now)
  {
    hide View.Valid, ViewOK, Planned, IvsOK, ByLo;
    ValidView(sc, v);
    var baseExp, deltaExp, clock := QueryClock(v, now);
    ClockShortcut(sc, v.Model(), now);
    s := Sweep(sc, groups, qs.plans, qs.Pools(), qs.ivs, baseExp, deltaExp, clock);
  }

  // The answer is the oracle's sums over the map the view denotes, and the base rows
  // visited for it are those the query reaches, each once.
  method QueryGroups(sc: Schema, v: View, groups: seq<Group>, maxScan: int, now: int, prev: Caps)
    returns (r: Answer<seq<int>>, ghost rooms: seq<Option<nat>>, ghost visited: seq<nat>)
    requires v.Valid(sc)
    ensures Decided(sc, v.Model(), groups, 0, prev, maxScan, rooms, r)
    ensures r.Result? ==> r.value == SumsOf(Selected(sc, v.Contents(), groups, now), |sc.metrics|)
    ensures r.Result? ==> Visits(visited, ReachSet(sc, v.Model(), groups, rooms))
    ensures r.Result? && maxScan > 0 ==> |visited| + |v.delta.rows| <= maxScan
  {
    hide *;
    ghost var m := v.Model();
    var qs, stack := Route(groups, 0, prev);
    visited := [];
    assert v.Valid(sc) && v.Model() == m;
    FreshIs(qs);
    var plan;
    plan, rooms := PlanGroups(sc, v, groups, qs, maxScan, 0);
    assert v.Valid(sc) && v.Model() == m;
    ghost var ivs := qs.ivs;
    match plan {
      case NoGroups => r := Answer.NoGroups;
      case BadCond => r := BadCondition;
      case OverBudget => r := ScanBudget;
      case Ready =>
        var s := Prepare(sc, v, groups, qs, now);
        var dst;
        dst, visited := SumBase(s, v, now);
        VisitsAreCovered(ivs, |v.base.rows|, visited);
        VisitCount(visited, Covered(ivs, |v.base.rows|));
        dst := SumDelta(s, v, now, dst);
        ValidView(sc, v);
        SumsAreOracle(sc, m, groups, now);
        ContentsAre(v);
        r := Result(dst);
    }
    Decide(sc, v, groups, 0, prev, maxScan, rooms, plan, r);
  }

  // What planning decided is what the query answers.
  lemma Decide<T>(sc: Schema, v: View, groups: seq<Group>, nAggs: nat, prev: Caps, maxScan: int,
          rooms: seq<Option<nat>>, plan: PlanResult, r: Answer<T>)
    requires (r.NoGroups? <==> plan.NoGroups?) && (r.BadCondition? <==> plan.BadCond?)
               && (r.ScanBudget? <==> plan.OverBudget?)
    requires (plan.NoGroups? <==> |groups| == 0) && (plan.BadCond? <==> AnyInvalid(sc, CombOf(v.Model()), groups))
    requires plan.OverBudget? || plan.Ready? ==> RoomsOK(sc, v.Model(), groups, CapsFor(groups, nAggs, prev).ivs, rooms)
    requires plan.OverBudget? || plan.Ready? ==> (plan.OverBudget? <==> TooWide(sc, v.Model(), groups, rooms, maxScan))
    ensures Decided(sc, v.Model(), groups, nAggs, prev, maxScan, rooms, r)
    ensures TooWide(sc, v.Model(), groups, rooms, maxScan)
            <==> maxScan > 0 && |ReachSet(sc, v.Model(), groups, rooms)| + |v.delta.rows| > maxScan
  {
    hide AnyInvalid, RoomsOK, CapsFor, ReachSet;
  }
}
