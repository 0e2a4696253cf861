// plan()'s condition loop: every condition of a group is resolved into the pools.
module Resolve {
  import opened Decimal
  import opened Table
  import opened Engine
  import opened Oracle
  import opened Upsert
  import opened Scratch
  import opened Conditions
  import opened Insertion

  // ---- Looking a spelling up ----

  method LookupValue(sc: Schema, v: View, d: nat, s: Text) returns (valid: bool, found: bool, id: nat)
    requires v.Valid(sc) && d < |sc.dims|
    ensures valid <==> ValueOf(sc, d, s).Some?
    ensures valid ==> (found <==> ValueOf(sc, d, s).value in CombOf(v.Model())[d])
    ensures valid && found ==> HasId(CombOf(v.Model())[d], ValueOf(sc, d, s).value, id)
  {
    hide SnapOK, DeltaOK, Shadowing, RowsIn, DictsOK;
    var x := ValueOf(sc, d, s);
    if x.None? {
      return false, false, 0;
    }
    CombSplit(sc, v, d);
    var b := v.base.dicts[d].Lookup(x.value);
    if b.Some? {
      return true, true, b.value;
    }
    var e := v.extras[d].Lookup(x.value);
    if e.Some? {
      return true, true, |v.base.dicts[d].vals| + e.value;
    }
    return true, false, 0;
  }

  lemma CombSplit(sc: Schema, v: View, d: nat)
    requires v.Valid(sc) && d < |sc.dims|
    ensures |CombOf(v.Model())| == |sc.dims|
    ensures CombOf(v.Model())[d] == v.base.dicts[d].vals + v.extras[d].vals
  {
  }

  // ---- Windows ----

  ghost predicate AscendingIds(s: seq<nat>) {
    forall i, j :: 0 <= i < j < |s| ==> s[i] <= s[j]
  }

  ghost predicate SameIds(a: seq<nat>, b: seq<nat>) {
    |a| == |b| && forall x :: x in a <==> x in b
  }

  // slices.Sort on one window; duplicates stay.
  method SortIds(s: seq<nat>) returns (r: seq<nat>, ghost perm: seq<nat>)
    ensures AscendingIds(r) && SameIds(s, r) && multiset(r) == multiset(s) && |r| == |s|
    ensures Permutes(perm, |s|) && forall x :: 0 <= x < |r| ==> r[x] == s[perm[x]]
  {
    hide InsertAt, AscendingIds, Permutes;
    r, perm := [], [];
    NoneAscending();
    for i := 0 to |s|
      invariant AscendingIds(r) && multiset(r) == multiset(s[..i])
      invariant Permutes(perm, i) && Picks(s, i, perm, r)
    {
      var p := |r|;
      while p > 0 && r[p - 1] > s[i]
        invariant 0 <= p <= |r|
        invariant forall k :: p <= k < |r| ==> r[k] > s[i]
      {
        p := p - 1;
      }
      InsertAscending(r, p, s[i]);
      InsertKeeps(r, p, s[i]);
      InsertPermutes(perm, i, p);
      assert s[..i + 1] == s[..i] + [s[i]];
      r, perm := InsertAt(r, p, s[i]), InsertAt<nat>(perm, p, i);
    }
    assert s[..|s|] == s;
    SameMultiset(s, r);
  }

  // Element x of r is element perm[x] of s, all of them among the first n.
  ghost predicate Picks(s: seq<nat>, n: nat, perm: seq<nat>, r: seq<nat>) {
    |r| == |perm| && n <= |s| && forall x :: 0 <= x < |r| ==> perm[x] < n && r[x] == s[perm[x]]
  }

  lemma NoneAscending()
    ensures AscendingIds([]) && Permutes([], 0)
  {
  }

  lemma InsertAscending(r: seq<nat>, p: nat, x: nat)
    requires AscendingIds(r) && p <= |r| && (p > 0 ==> r[p - 1] <= x) && forall k :: p <= k < |r| ==> r[k] > x
    ensures AscendingIds(InsertAt(r, p, x))
  {
    hide InsertAt;
  }

  lemma SameMultiset(a: seq<nat>, b: seq<nat>)
    requires multiset(a) == multiset(b)
    ensures SameIds(a, b)
  {
    assert |multiset(a)| == |a| && |multiset(b)| == |b|;
    forall x ensures x in a <==> x in b {
      assert x in multiset(a) <==> x in multiset(b);
    }
  }

  // ---- One condition ----

  // What resolving condition c appended to the pools.
  ghost predicate Pushed(sc: Schema, comb: Dicts, c: Cond, a: PoolsV, b: PoolsV)
    requires |comb| == |sc.dims|
  {
    var d := sc.DimIndex(c.dim);
    d >= 0 &&
    if c.range.Some? then
      sc.dims[d].isInt && b == a.(rWins := a.rWins + [RangeWindow(d, c.range.value.min, c.range.value.max)])
    else if |c.ins| > 0 then
      && |a.inPool| < |b.inPool| && a.inPool <= b.inPool
      && b == a.(inPool := b.inPool, inWins := a.inWins + [InWindow(d, |a.inPool|, |b.inPool| - |a.inPool|)])
      && AscendingIds(b.inPool[|a.inPool|..])
      && IdsOf(sc, comb, d, c.ins, |c.ins|, b.inPool[|a.inPool|..])
      && WinCounts(sc, comb, d, c.ins, |c.ins|, b.inPool[|a.inPool|..])
      && Sourced(sc, comb, d, c.ins, |c.ins|, b.inPool[|a.inPool|..])
    else
      && |b.condIDs| == |a.condIDs| + 1
      && b == a.(condDims := a.condDims + [d], condIDs := b.condIDs) && a.condIDs <= b.condIDs
      && ValueOf(sc, d, c.value).Some? && HasId(comb[d], ValueOf(sc, d, c.value).value, b.condIDs[|a.condIDs|])
  }

  // Some id of the window is in the base dictionary.
  ghost predicate ReachesBase(base: Dicts, d: nat, win: seq<nat>)
    requires d < |base|
  {
    exists k :: 0 <= k < |win| && win[k] < |base[d]|
  }

  ghost predicate CondRoom(qs: QueryScratch, c: Cond)
    reads qs
  {
    && qs.Valid()
    && |qs.condDims| + Weight(c, Conds) <= qs.caps.conds
    && |qs.inWins| + Weight(c, InConds) <= qs.caps.inConds
    && |qs.inPool| + Weight(c, InVals) <= qs.caps.inVals
    && |qs.rWins| + Weight(c, Ranges) <= qs.caps.ranges
  }

  // The pools after, at most the condition's weight longer.
  ghost predicate CondUsed(a: PoolsV, b: PoolsV, c: Cond) {
    && Grown(a, b)
    && |b.condDims| <= |a.condDims| + Weight(c, Conds)
    && |b.inWins| <= |a.inWins| + Weight(c, InConds)
    && |b.inPool| <= |a.inPool| + Weight(c, InVals)
    && |b.rWins| <= |a.rWins| + Weight(c, Ranges)
  }

  // Collects the ids of an IN list; values nowhere in the table are dropped.
  method CollectIds(sc: Schema, v: View, c: Cond, d: nat, qs: QueryScratch) returns (valid: bool, anyBase: bool)
    requires v.Valid(sc) && d < |sc.dims| && qs.Valid() && |qs.inPool| + |c.ins| <= qs.caps.inVals
    modifies qs`inPool
    ensures qs.Valid() && old(qs.inPool) <= qs.inPool && |qs.inPool| <= old(|qs.inPool|) + |c.ins|
    ensures valid <==> forall i :: 0 <= i < |c.ins| ==> ValueOf(sc, d, c.ins[i]).Some?
    ensures valid ==> IdsOf(sc, CombOf(v.Model()), d, c.ins, |c.ins|, qs.inPool[old(|qs.inPool|)..])
    ensures valid ==> WinCounts(sc, CombOf(v.Model()), d, c.ins, |c.ins|, qs.inPool[old(|qs.inPool|)..])
    ensures valid ==> Sourced(sc, CombOf(v.Model()), d, c.ins, |c.ins|, qs.inPool[old(|qs.inPool|)..])
    ensures valid ==> (anyBase <==> ReachesBase(v.Model().base.dicts, d, qs.inPool[old(|qs.inPool|)..]))
  {
    hide View.Valid, IdsOf, ValueOf, WinCounts, Sourced;
    ghost var (comb, base) := (CombOf(v.Model()), v.Model().base.dicts);
    var off := |qs.inPool|;
    anyBase := false;
    CombSplit(sc, v, d);
    NoIds(sc, comb, base, d, c.ins);
    assert qs.inPool[off..] == [];
    for i := 0 to |c.ins|
      invariant qs.Valid() && old(qs.inPool) <= qs.inPool && |qs.inPool| <= off + i
      invariant forall k :: 0 <= k < i ==> ValueOf(sc, d, c.ins[k]).Some?
      invariant IdsOf(sc, comb, d, c.ins, i, qs.inPool[off..]) && WinCounts(sc, comb, d, c.ins, i, qs.inPool[off..])
      invariant Sourced(sc, comb, d, c.ins, i, qs.inPool[off..])
      invariant anyBase <==> ReachesBase(base, d, qs.inPool[off..])
    {
      var ok, found, id := LookupValue(sc, v, d, c.ins[i]);
      if !ok {
        return false, anyBase;
      }
      MoreIds(sc, v, d, c.ins, i, qs.inPool[off..], found, id);
      if found {
        assert qs.inPool[off..] + [id] == (qs.inPool + [id])[off..];
        qs.PushInId(id);
        if id < |v.base.dicts[d].vals| {
          anyBase := true;
        }
      }
    }
    valid := true;
  }

  lemma NoIds(sc: Schema, comb: Dicts, base: Dicts, d: nat, ins: seq<Text>)
    requires d < |sc.dims| == |comb| == |base|
    ensures IdsOf(sc, comb, d, ins, 0, []) && WinCounts(sc, comb, d, ins, 0, []) && !ReachesBase(base, d, [])
    ensures Sourced(sc, comb, d, ins, 0, [])
  {
    assert SourcedBy(sc, comb, d, ins, 0, [], []);
  }

  lemma MoreIds(sc: Schema, v: View, d: nat, ins: seq<Text>, i: nat, win: seq<nat>, found: bool, id: nat)
    requires v.Valid(sc) && d < |sc.dims| && i < |ins| && ValueOf(sc, d, ins[i]).Some?
    requires |CombOf(v.Model())| == |sc.dims| && IdsOf(sc, CombOf(v.Model()), d, ins, i, win)
    requires WinCounts(sc, CombOf(v.Model()), d, ins, i, win) && Sourced(sc, CombOf(v.Model()), d, ins, i, win)
    requires found <==> ValueOf(sc, d, ins[i]).value in CombOf(v.Model())[d]
    requires found ==> HasId(CombOf(v.Model())[d], ValueOf(sc, d, ins[i]).value, id)
    ensures IdsOf(sc, CombOf(v.Model()), d, ins, i + 1, if found then win + [id] else win)
    ensures WinCounts(sc, CombOf(v.Model()), d, ins, i + 1, if found then win + [id] else win)
    ensures Sourced(sc, CombOf(v.Model()), d, ins, i + 1, if found then win + [id] else win)
    ensures ReachesBase(v.Model().base.dicts, d, win + [id]) <==>
              ReachesBase(v.Model().base.dicts, d, win) || id < |v.base.dicts[d].vals|
  {
    hide View.Valid, IdsOf, ValueOf, DictOK, WinCounts, Sourced;
    CombSplit(sc, v, d);
    CombEntry(sc, v, d);
    var comb := CombOf(v.Model());
    MoreIdsPure(sc, comb, d, ins, i, win, found, id);
    MoreCounts(sc, comb, d, ins, i, win, found, id);
    MoreSources(sc, comb, d, ins, i, win, found, id);
    ReachStep(v.Model().base.dicts, d, win, id);
  }

  lemma MoreCounts(sc: Schema, comb: Dicts, d: nat, ins: seq<Text>, i: nat, win: seq<nat>, found: bool, id: nat)
    requires d < |sc.dims| == |comb| && i < |ins| && DictOK(comb[d], sc.dims[d].isInt)
    requires ValueOf(sc, d, ins[i]).Some? && WinCounts(sc, comb, d, ins, i, win)
    requires found <==> ValueOf(sc, d, ins[i]).value in comb[d]
    requires found ==> HasId(comb[d], ValueOf(sc, d, ins[i]).value, id)
    ensures WinCounts(sc, comb, d, ins, i + 1, if found then win + [id] else win)
  {
    hide ValueOf, KindOK;
    var (dict, x) := (comb[d], ValueOf(sc, d, ins[i]).value);
    forall limit: nat | limit <= |dict|
      ensures CountBelow(if found then win + [id] else win, limit) == ListCount(sc, dict[..limit], d, ins, i + 1)
    {
      CountAppend(win, id, limit);
      assert x in dict[..limit] <==> found && id < limit by {
        if x in dict[..limit] {
          var k :| 0 <= k < limit && dict[..limit][k] == x;
          assert dict[k] == x;
        }
        if found && id < limit {
          assert dict[..limit][id] == x;
        }
      }
    }
  }

  lemma MoreSources(sc: Schema, comb: Dicts, d: nat, ins: seq<Text>, i: nat, win: seq<nat>, found: bool, id: nat)
    requires d < |sc.dims| == |comb| && i < |ins|
    requires ValueOf(sc, d, ins[i]).Some? && Sourced(sc, comb, d, ins, i, win)
    requires found <==> ValueOf(sc, d, ins[i]).value in comb[d]
    requires found ==> HasId(comb[d], ValueOf(sc, d, ins[i]).value, id)
    ensures Sourced(sc, comb, d, ins, i + 1, if found then win + [id] else win)
  {
    hide ValueOf, HasId;
    var src :| SourcedBy(sc, comb, d, ins, i, win, src);
    if found {
      assert SourcedBy(sc, comb, d, ins, i + 1, win + [id], src + [i]);
    } else {
      assert SourcedBy(sc, comb, d, ins, i + 1, win, src);
    }
  }

  lemma ReachStep(base: Dicts, d: nat, win: seq<nat>, id: nat)
    requires d < |base|
    ensures ReachesBase(base, d, win + [id]) <==> ReachesBase(base, d, win) || id < |base[d]|
  {
    var w' := win + [id];
    if ReachesBase(base, d, win) {
      var k :| 0 <= k < |win| && win[k] < |base[d]|;
      assert w'[k] < |base[d]|;
    }
    if id < |base[d]| {
      assert w'[|win|] < |base[d]|;
    }
  }

  lemma CombEntry(sc: Schema, v: View, d: nat)
    requires v.Valid(sc) && d < |sc.dims|
    ensures DictOK(CombOf(v.Model())[d], sc.dims[d].isInt)
    ensures |v.Model().base.dicts| == |sc.dims| && v.Model().base.dicts[d] == v.base.dicts[d].vals
  {
  }

  lemma MoreIdsPure(sc: Schema, comb: Dicts, d: nat, ins: seq<Text>, i: nat, win: seq<nat>, found: bool, id: nat)
    requires d < |sc.dims| == |comb| && i < |ins| && DictOK(comb[d], sc.dims[d].isInt)
    requires ValueOf(sc, d, ins[i]).Some? && IdsOf(sc, comb, d, ins, i, win)
    requires found <==> ValueOf(sc, d, ins[i]).value in comb[d]
    requires found ==> HasId(comb[d], ValueOf(sc, d, ins[i]).value, id)
    ensures IdsOf(sc, comb, d, ins, i + 1, if found then win + [id] else win)
  {
    hide ValueOf, KindOK;
    var w' := if found then win + [id] else win;
    forall k | 0 <= k < |w'|
      ensures exists q ::
                0 <= q < i + 1 && ValueOf(sc, d, ins[q]).Some? && HasId(comb[d], ValueOf(sc, d, ins[q]).value, w'[k])
    {
      if k < |win| {
        var q :| 0 <= q < i && ValueOf(sc, d, ins[q]).Some? && HasId(comb[d], ValueOf(sc, d, ins[q]).value, win[k]);
        assert HasId(comb[d], ValueOf(sc, d, ins[q]).value, w'[k]);
      } else {
        assert HasId(comb[d], ValueOf(sc, d, ins[i]).value, w'[k]);
      }
    }
    forall q, x | 0 <= q < i + 1 && ValueOf(sc, d, ins[q]).Some? && HasId(comb[d], ValueOf(sc, d, ins[q]).value, x)
      ensures x in w'
    {
      if q < i {
        assert x in win;
      } else {
        assert x == id;
      }
    }
  }

  // Resolves one condition into the pools.
  method PlanCond(sc: Schema, v: View, c: Cond, qs: QueryScratch) returns (verdict: Verdict, anyBase: bool)
    requires v.Valid(sc) && |CombOf(v.Model())| == |sc.dims| && CondRoom(qs, c)
    modifies qs`condDims, qs`condIDs, qs`inWins, qs`inPool, qs`rWins
    ensures qs.Valid() && CondUsed(old(qs.Pools()), qs.Pools(), c)
    ensures verdict == Judge(sc, CombOf(v.Model()), c)
    ensures verdict.Absent? ==> qs.Pools() == old(qs.Pools())
    ensures verdict.Usable? ==> Pushed(sc, CombOf(v.Model()), c, old(qs.Pools()), qs.Pools())
    ensures verdict.Usable? && c.range.None? && |c.ins| > 0 ==>
              (anyBase <==> ReachesBaseAt(v.Model().base.dicts, sc.DimIndex(c.dim), qs.inPool[old(|qs.inPool|)..]))
  {
    hide View.Valid, IdsOf, ValueOf, ReachesBaseAt, AscendingIds, WinCounts, Sourced;
    var di := sc.DimIndex(c.dim);
    anyBase := true;
    if di < 0 {
      return Invalid, anyBase;
    }
    if c.range.Some? {
      if c.value != [] || |c.ins| > 0 || !sc.dims[di].isInt {
        return Invalid, anyBase;
      }
      qs.PushRange(RangeWindow(di, c.range.value.min, c.range.value.max));
      return Usable, anyBase;
    }
    if |c.ins| > 0 {
      verdict, anyBase := PlanIn(sc, v, c, di, qs);
      return;
    }
    var ok, found, id := LookupValue(sc, v, di, c.value);
    if !ok {
      return Invalid, anyBase;
    }
    if !found {
      return Absent, anyBase;
    }
    qs.PushCond(di, id);
    return Usable, anyBase;
  }

  ghost predicate ReachesBaseAt(base: Dicts, d: int, win: seq<nat>) {
    0 <= d < |base| && ReachesBase(base, d, win)
  }

  method PlanIn(sc: Schema, v: View, c: Cond, di: nat, qs: QueryScratch) returns (verdict: Verdict, anyBase: bool)
    requires v.Valid(sc) && |CombOf(v.Model())| == |sc.dims| && CondRoom(qs, c)
    requires sc.DimIndex(c.dim) == di && c.range.None? && |c.ins| > 0
    modifies qs`inWins, qs`inPool
    ensures qs.Valid() && CondUsed(old(qs.Pools()), qs.Pools(), c)
    ensures verdict == Judge(sc, CombOf(v.Model()), c)
    ensures verdict.Absent? ==> qs.Pools() == old(qs.Pools())
    ensures verdict.Usable? ==> Pushed(sc, CombOf(v.Model()), c, old(qs.Pools()), qs.Pools())
    ensures verdict.Usable? ==> (anyBase <==> ReachesBaseAt(v.Model().base.dicts, di, qs.inPool[old(|qs.inPool|)..]))
  {
    hide View.Valid, View.Model, IdsOf, ValueOf, AscendingIds, ReachesBase, SameIds, WinCounts, Sourced, Permutes;
    anyBase := true;
    if c.value != [] {
      return Invalid, anyBase;
    }
    var off := |qs.inPool|;
    var valid;
    valid, anyBase := CollectIds(sc, v, c, di, qs);
    if !valid {
      return Invalid, anyBase;
    }
    InVerdict(sc, CombOf(v.Model()), c, di, qs.inPool[off..]);
    if |qs.inPool| == off {
      return Absent, anyBase;
    }
    CombEntry(sc, v, di);
    SortTail(sc, CombOf(v.Model()), v.Model().base.dicts, di, c.ins, qs, off);
    qs.PushInWin(InWindow(di, off, |qs.inPool| - off));
    return Usable, anyBase;
  }

  // Sorts the window in place at the end of the pool.
  method SortTail(sc: Schema, ghost comb: Dicts, ghost base: Dicts, ghost d: nat, ghost ins: seq<Text>,
          qs: QueryScratch, off: nat)
    requires qs.Valid() && off <= |qs.inPool| && d < |sc.dims| == |comb| && d < |base|
    requires IdsOf(sc, comb, d, ins, |ins|, qs.inPool[off..]) && WinCounts(sc, comb, d, ins, |ins|, qs.inPool[off..])
    requires Sourced(sc, comb, d, ins, |ins|, qs.inPool[off..])
    modifies qs`inPool
    ensures qs.Valid() && |qs.inPool| == old(|qs.inPool|) && qs.inPool[..off] == old(qs.inPool[..off])
    ensures AscendingIds(qs.inPool[off..]) && IdsOf(sc, comb, d, ins, |ins|, qs.inPool[off..])
    ensures WinCounts(sc, comb, d, ins, |ins|, qs.inPool[off..]) && Sourced(sc, comb, d, ins, |ins|, qs.inPool[off..])
    ensures ReachesBase(base, d, qs.inPool[off..]) <==> ReachesBase(base, d, old(qs.inPool[off..]))
  {
    hide IdsOf, AscendingIds, ReachesBase, SameIds, WinCounts, Sourced, Permutes;
    var seg, perm := SortIds(qs.inPool[off..]);
    SortKeeps(sc, comb, base, d, ins, qs.inPool[off..], seg);
    SortCounts(sc, comb, d, ins, qs.inPool[off..], seg);
    SortSources(sc, comb, d, ins, qs.inPool[off..], seg, perm);
    qs.inPool := qs.inPool[..off] + seg;
    assert qs.inPool[off..] == seg;
  }

  lemma InVerdict(sc: Schema, comb: Dicts, c: Cond, d: nat, win: seq<nat>)
    requires |comb| == |sc.dims| && sc.DimIndex(c.dim) == d && c.range.None? && |c.ins| > 0 && c.value == []
    requires forall i :: 0 <= i < |c.ins| ==> ValueOf(sc, d, c.ins[i]).Some?
    requires IdsOf(sc, comb, d, c.ins, |c.ins|, win)
    ensures Judge(sc, comb, c) == if |win| > 0 then Usable else Absent
  {
    hide ValueOf;
    if |win| > 0 {
      var i :| 0 <= i < |c.ins| && ValueOf(sc, d, c.ins[i]).Some?
        && HasId(comb[d], ValueOf(sc, d, c.ins[i]).value, win[0]);
      assert ValueOf(sc, d, c.ins[i]).value in comb[d];
    }
    forall i | 0 <= i < |c.ins| && ValueOf(sc, d, c.ins[i]).value in comb[d] ensures |win| > 0 {
      var id: nat :| id < |comb[d]| && comb[d][id] == ValueOf(sc, d, c.ins[i]).value;
      assert HasId(comb[d], ValueOf(sc, d, c.ins[i]).value, id);
      assert id in win;
    }
  }

  lemma SortKeeps(sc: Schema, comb: Dicts, base: Dicts, d: nat, ins: seq<Text>, win: seq<nat>, seg: seq<nat>)
    requires d < |sc.dims| == |comb| && d < |base| && SameIds(win, seg) && IdsOf(sc, comb, d, ins, |ins|, win)
    ensures IdsOf(sc, comb, d, ins, |ins|, seg)
    ensures ReachesBase(base, d, seg) <==> ReachesBase(base, d, win)
  {
    hide ValueOf, HasId;
    forall k | 0 <= k < |seg|
      ensures exists i ::
                0 <= i < |ins| && ValueOf(sc, d, ins[i]).Some? && HasId(comb[d], ValueOf(sc, d, ins[i]).value, seg[k])
    {
      assert seg[k] in win;
      var q :| 0 <= q < |win| && win[q] == seg[k];
    }
    if ReachesBase(base, d, seg) {
      var k :| 0 <= k < |seg| && seg[k] < |base[d]|;
      assert seg[k] in win;
    }
    if ReachesBase(base, d, win) {
      var k :| 0 <= k < |win| && win[k] < |base[d]|;
      assert win[k] in seg;
    }
  }

  lemma SortCounts(sc: Schema, comb: Dicts, d: nat, ins: seq<Text>, win: seq<nat>, seg: seq<nat>)
    requires d < |sc.dims| == |comb| && multiset(win) == multiset(seg) && WinCounts(sc, comb, d, ins, |ins|, win)
    ensures WinCounts(sc, comb, d, ins, |ins|, seg)
  {
    hide ListCount;
    forall limit: nat | limit <= |comb[d]|
      ensures CountBelow(seg, limit) == ListCount(sc, comb[d][..limit], d, ins, |ins|)
    {
      CountPermuted(win, seg, limit);
      assert CountBelow(win, limit) == ListCount(sc, comb[d][..limit], d, ins, |ins|);
    }
  }

  lemma SortSources(sc: Schema, comb: Dicts, d: nat, ins: seq<Text>, win: seq<nat>, seg: seq<nat>, perm: seq<nat>)
    requires d < |sc.dims| == |comb| && Sourced(sc, comb, d, ins, |ins|, win)
    requires Permutes(perm, |win|) && |seg| == |win| && forall x :: 0 <= x < |seg| ==> seg[x] == win[perm[x]]
    ensures Sourced(sc, comb, d, ins, |ins|, seg)
  {
    hide ValueOf, HasId;
    var src :| SourcedBy(sc, comb, d, ins, |ins|, win, src);
    var moved := seq(|perm|, x requires 0 <= x < |perm| => src[perm[x]]);
    forall i: nat | i < |ins| && ValueOf(sc, d, ins[i]).Some? && ValueOf(sc, d, ins[i]).value in comb[d]
      ensures i in moved
    {
      var x :| 0 <= x < |src| && src[x] == i;
      assert x in perm;
      var y :| 0 <= y < |perm| && perm[y] == x;
      assert moved[y] == i;
    }
    assert SourcedBy(sc, comb, d, ins, |ins|, seg, moved);
  }
}
