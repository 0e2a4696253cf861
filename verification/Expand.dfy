// From index-prefix candidates to base row intervals: prefix ranges and IN expansion.
module Expand {
  import Bits
  import opened Packing
  import opened Table
  import Engine
  import opened Oracle
  import Upsert
  import opened Scratch
  import opened Conditions
  import Resolve
  import opened Planner
  import Odometer

  // ---- One prefix range ----

  predicate HasPrefix(ids: seq<nat>, pre: seq<nat>) { |pre| <= |ids| && ids[..|pre|] == pre }

  // A prefix made of ids of the base dictionaries.
  ghost predicate BasePrefix(sc: Schema, base: Dicts, pre: seq<nat>) {
    0 < |pre| <= sc.indexDims <= |base| && forall d :: 0 <= d < |pre| ==> pre[d] < |base[d]|
  }

  lemma PrefixFits(sc: Schema, s: SnapV, pre: seq<nat>)
    requires SnapOK(sc, s) && BasePrefix(sc, s.dicts, pre)
    ensures Fits(IndexCards(sc, s.dicts)[..|pre|], pre)
    ensures Nested(s.shifts[..|pre|], pre)
    ensures |s.shifts| == sc.indexDims
  {
    var (cards, k) := (IndexCards(sc, s.dicts), |pre|);
    assert forall d :: 0 <= d < k ==> cards[..k][d] == |s.dicts[d]|;
    FitsBelow(cards[..k], pre);
    // complete the prefix with zeros to borrow the full layout's nesting
    var full := pre + seq(sc.indexDims - k, (_: nat) => 0);
    forall d | 0 <= d < sc.indexDims ensures full[d] < Bits.Pow2(DictBits(cards[d])) {
      if d < k {
        DictBitsLeast(cards[d], 1);
      }
    }
    LayoutNested(s.shifts, cards, full);
    forall i | 0 <= i < k ensures NestedAt(s.shifts[..k], pre, i) {
      assert NestedAt(s.shifts, full, i);
    }
  }

  // Row r carries the prefix exactly when its key lies in the prefix's key range.
  lemma PrefixRow(sc: Schema, s: SnapV, pre: seq<nat>, r: nat)
    requires SnapOK(sc, s) && BasePrefix(sc, s.dicts, pre) && r < |s.rows|
    requires |s.shifts| == sc.indexDims && |s.keys| == |s.rows|
    ensures var lo := KeyOf(s.shifts[..|pre|], pre);
            HasPrefix(s.rows[r].ids, pre) <==> lo <= s.keys[r] <= lo + Bits.Pow2(s.shifts[|pre| - 1]) - 1
  {
    hide SnapOK, KeyOf, Fits, Nested, Layout;
    var (ids, n, k) := (s.rows[r].ids, sc.indexDims, |pre|);
    RowKeyed(sc, s, r);
    PrefixFits(sc, s, pre);
    Engine.KeyFits(sc, s, ids);
    PrefixRange(s.shifts, IndexCards(sc, s.dicts), pre, ids[..n], k);
    KeyTake(s.shifts, ids);
    assert ids[..n][..k] == ids[..k];
  }

  lemma RowKeyed(sc: Schema, s: SnapV, r: nat)
    requires SnapOK(sc, s) && r < |s.rows|
    ensures InRange(s.dicts, s.rows[r].ids) && |s.rows[r].ids| == |sc.dims| >= sc.indexDims
    ensures |s.dicts| == |sc.dims| && |s.keys| == |s.rows| && s.keys[r] == KeyOf(s.shifts, s.rows[r].ids)
    ensures Layout(s.shifts, IndexCards(sc, s.dicts))
  {
  }

  // The two binary searches: [lo, hi) is precisely the rows carrying the prefix.
  method RangeOf(sc: Schema, base: Engine.Snapshot, pre: seq<nat>) returns (lo: nat, hi: nat)
    requires base.Valid(sc) && BasePrefix(sc, base.Model().dicts, pre)
    ensures lo <= |base.rows| && hi <= |base.rows|
    ensures forall r :: 0 <= r < |base.rows| ==> (HasPrefix(base.rows[r].ids, pre) <==> lo <= r < hi)
  {
    hide Fits, Nested, Scalars, UniqueIds, KeyOf, RowsIn, DictsOK, HasPrefix, Layout;
    ghost var m := base.Model();
    var k := |pre|;
    PrefixFits(sc, m, pre);
    var lo64 := PackKey(base.shifts[..k], pre);
    PrefixTop(base.shifts[..k], pre);
    assert base.shifts[..k][k - 1] == base.shifts[k - 1];
    var hi64 := Bits.Or(lo64, Bits.Pow2(base.shifts[k - 1]) - 1);
    SnapKeys(sc, m);
    lo := Engine.LowerBound(base.keys, lo64);
    hi := Engine.UpperBound(base.keys, hi64);
    forall r | 0 <= r < |base.rows| ensures HasPrefix(base.rows[r].ids, pre) <==> lo <= r < hi {
      PrefixRow(sc, m, pre, r);
    }
  }

  lemma SnapKeys(sc: Schema, s: SnapV)
    requires SnapOK(sc, s)
    ensures Ascending(s.keys) && |s.keys| == |s.rows| && |s.shifts| == sc.indexDims
  {
  }

  // ---- Intervals cover rows ----

  predicate CoverRow(ivs: seq<Iv>, r: nat) {
    exists i :: 0 <= i < |ivs| && ivs[i].lo <= r < ivs[i].hi
  }

  lemma CoverGrows(a: seq<Iv>, b: seq<Iv>, r: nat)
    requires a <= b && CoverRow(a, r)
    ensures CoverRow(b, r)
  {
    var i :| 0 <= i < |a| && a[i].lo <= r < a[i].hi;
    assert b[i] == a[i];
  }

  ghost predicate IvsOK(ivs: seq<Iv>, n: nat) {
    forall i :: 0 <= i < |ivs| ==> ivs[i].lo < ivs[i].hi <= n
  }

  // ---- Candidates per index dimension ----

  // hasEq/eqID pin a dimension; otherwise candN ids at candOff may stand there.
  datatype Cover = Cover(hasEq: seq<bool>, eqID: seq<nat>, candOff: seq<nat>, candN: seq<nat>)

  function CandAt(c: Cover, pool: seq<nat>, d: nat, x: nat): nat {
    if d < |c.hasEq| && d < |c.eqID| && c.hasEq[d] then c.eqID[d]
    else if d < |c.candOff| && c.candOff[d] + x < |pool| then pool[c.candOff[d] + x]
    else 0
  }

  function PrefixAt(c: Cover, pool: seq<nat>, idx: seq<nat>): seq<nat> {
    seq(|idx|, d requires 0 <= d < |idx| => CandAt(c, pool, d, idx[d]))
  }

  function Radix(c: Cover): seq<nat> {
    seq(|c.candN|, d requires 0 <= d < |c.candN| => if c.candN[d] == 0 then 1 else c.candN[d])
  }

  ghost predicate Shaped(sc: Schema, c: Cover) {
    |c.hasEq| == |c.eqID| == |c.candOff| == |c.candN| == sc.indexDims
  }

  // Candidates are base ids; a pinned dimension has none.
  ghost predicate CandsOK(sc: Schema, base: Dicts, c: Cover, pool: seq<nat>) {
    && Shaped(sc, c) && sc.indexDims <= |base|
    && (forall d :: 0 <= d < sc.indexDims && c.hasEq[d] ==> c.candN[d] == 0 && c.eqID[d] < |base[d]|)
    && (forall d :: 0 <= d < sc.indexDims && c.candN[d] > 0 ==> c.candOff[d] + c.candN[d] <= |pool|)
    && (forall d, x: nat :: 0 <= d < sc.indexDims && !c.hasEq[d] && x < c.candN[d] ==>
         CandAt(c, pool, d, x) < |base[d]|)
  }

  ghost predicate BaseMatches(sc: Schema, m: ViewV, g: Group, r: nat) {
    r < |m.base.rows| && Matches(sc, Decode(Upsert.CombOf(m), m.base.rows[r].ids), g)
  }

  function RowId(rows: seq<Row>, r: nat, d: nat): nat {
    if r < |rows| then IdAt(rows[r], d) else 0
  }

  ghost predicate HasCand(c: Cover, pool: seq<nat>, d: nat, id: nat) {
    d < |c.candN| && exists x: nat :: x < c.candN[d] && CandAt(c, pool, d, x) == id
  }

  // A row within the cover's first k dimensions: pinned ids equal, candidates listed.
  ghost predicate Within(rows: seq<Row>, c: Cover, pool: seq<nat>, k: nat, r: nat) {
    forall d: nat :: d < k ==>
      (d < |c.hasEq| && d < |c.eqID| && c.hasEq[d] ==> RowId(rows, r, d) == c.eqID[d])
      && (d < |c.candN| && c.candN[d] > 0 ==> HasCand(c, pool, d, RowId(rows, r, d)))
  }

  // Intervals that take in exactly the rows within the cover's first k dimensions.
  ghost predicate Emits(rows: seq<Row>, c: Cover, pool: seq<nat>, k: nat, ivs: seq<Iv>) {
    forall r: nat :: CoverRow(ivs, r) <==> r < |rows| && Within(rows, c, pool, k, r)
  }

  ghost predicate RowHas(rows: seq<Row>, pre: seq<nat>) {
    exists r: nat :: r < |rows| && HasPrefix(rows[r].ids, pre)
  }

  // The readings of the first k dimensions that some row carries, of those below n.
  ghost predicate Carried(rows: seq<Row>, c: Cover, pool: seq<nat>, radix: seq<nat>, n: nat, hits: set<seq<nat>>) {
    forall w :: w in hits <==>
      Odometer.InBox(radix, w) && Odometer.Rank(radix, w) < n && RowHas(rows, PrefixAt(c, pool, w))
  }

  // One interval for every such reading.
  ghost predicate Counted(rows: seq<Row>, c: Cover, pool: seq<nat>, k: nat, used: nat) {
    k <= |c.candN|
      && exists hits :: Carried(rows, c, pool, Radix(c)[..k], Odometer.Prod(Radix(c)[..k]), hits) && |hits| == used
  }

  // ---- What the condition loop established ----

  ghost predicate EqPossible(base: Dicts, pl: PoolsV, i: nat) {
    i < |pl.condDims| == |pl.condIDs| && pl.condDims[i] < |base| && pl.condIDs[i] < |base[pl.condDims[i]]|
  }

  ghost predicate WinPossible(base: Dicts, pl: PoolsV, i: nat) {
    i < |pl.inWins| && Resolve.ReachesBaseAt(base, pl.inWins[i].dim, WindowIds(pl.inWins[i], pl.inPool))
  }

  // Every equality id and some id of every window belongs to the base dictionaries.
  ghost predicate BasePossible(base: Dicts, p: GroupPlan, pl: PoolsV) {
    && (forall i :: p.condOff <= i < p.condOff + p.condN ==> EqPossible(base, pl, i))
    && (forall i :: p.insOff <= i < p.insOff + p.insN ==> WinPossible(base, pl, i))
  }

  ghost predicate Resolved(sc: Schema, m: ViewV, g: Group, st: Start, pl: PoolsV) {
    && ViewOK(sc, m)
    && Means(sc, Upsert.CombOf(m), g, st, pl)
  }

  lemma MatchHolds(sc: Schema, m: ViewV, g: Group, st: Start, pl: PoolsV, r: nat)
    requires Resolved(sc, m, g, st, pl) && BaseMatches(sc, m, g, r)
    ensures r < |m.base.rows| && CondsHold(Upsert.CombOf(m), Segment(st, pl), pl, m.base.rows[r].ids)
    ensures |m.base.rows[r].ids| == |sc.dims| && InRange(m.base.dicts, m.base.rows[r].ids)
  {
    hide Matches, Decode, CondsHold, Keyed, Scalars, Shadowing, DeltaOK;
    Upsert.BaseInComb(sc, m);
  }

  // A base row never satisfies a group one of whose values exists only in the overlay.
  lemma ImpossibleMatchesNothing(sc: Schema, m: ViewV, g: Group, st: Start, pl: PoolsV, r: nat)
    requires Resolved(sc, m, g, st, pl) && !BasePossible(m.base.dicts, Segment(st, pl), pl)
    ensures !BaseMatches(sc, m, g, r)
  {
    hide Resolved, BaseMatches, ViewOK;
    if BaseMatches(sc, m, g, r) {
      MatchHolds(sc, m, g, st, pl, r);
      var (p, ids, base) := (Segment(st, pl), m.base.rows[r].ids, m.base.dicts);
      SegmentWF(sc, m, g, st, pl);
      forall i | p.condOff <= i < p.condOff + p.condN ensures EqPossible(base, pl, i) {
        assert EqAt(pl, i, ids);
      }
      forall i | p.insOff <= i < p.insOff + p.insN ensures WinPossible(base, pl, i) {
        assert InAt(pl, i, ids);
        var win := WindowIds(pl.inWins[i], pl.inPool);
        var k :| 0 <= k < |win| && win[k] == ids[pl.inWins[i].dim];
      }
      assert false;
    }
  }

  lemma SegmentWF(sc: Schema, m: ViewV, g: Group, st: Start, pl: PoolsV)
    requires Resolved(sc, m, g, st, pl)
    ensures PoolsWellFormed(Upsert.CombOf(m), pl) && StartsIn(st, pl)
    ensures |Upsert.CombOf(m)| == |m.base.dicts| == |sc.dims| && 1 <= sc.indexDims <= |sc.dims| <= MAX_DIMS
  {
  }

  // ---- Coverage by equality and by IN ----

  // The last of the first n equalities on dimension d.
  ghost predicate EqFrom(p: GroupPlan, pl: PoolsV, n: nat, d: nat, id: nat) {
    exists i: nat :: EqLastAt(p, pl, n, d, i) && i < |pl.condIDs| && pl.condIDs[i] == id
  }

  ghost predicate EqLastAt(p: GroupPlan, pl: PoolsV, n: nat, d: nat, i: nat) {
    && p.condOff <= i < p.condOff + n && i < |pl.condDims| && pl.condDims[i] == d
    && forall k :: i < k < p.condOff + n && k < |pl.condDims| ==> pl.condDims[k] != d
  }

  ghost predicate EqNone(p: GroupPlan, pl: PoolsV, n: nat, d: nat) {
    forall k :: p.condOff <= k < p.condOff + n && k < |pl.condDims| ==> pl.condDims[k] != d
  }

  // Pinned exactly where an equality stands, by the last one.
  ghost predicate EqsCovered(sc: Schema, p: GroupPlan, pl: PoolsV, n: nat, hasEq: seq<bool>, eqID: seq<nat>) {
    && |hasEq| == |eqID| == sc.indexDims
    && forall d :: 0 <= d < sc.indexDims ==> if hasEq[d] then EqFrom(p, pl, n, d, eqID[d]) else EqNone(p, pl, n, d)
  }

  method EqCover(sc: Schema, p: GroupPlan, pl: PoolsV) returns (hasEq: seq<bool>, eqID: seq<nat>)
    requires p.condOff + p.condN <= |pl.condDims| == |pl.condIDs|
    ensures EqsCovered(sc, p, pl, p.condN, hasEq, eqID)
  {
    hide EqFrom, EqNone;
    hasEq := seq(sc.indexDims, (_: nat) => false);
    eqID := seq(sc.indexDims, (_: nat) => 0);
    EqStart(sc, p, pl, hasEq, eqID);
    for i := 0 to p.condN
      invariant EqsCovered(sc, p, pl, i, hasEq, eqID)
    {
      var d := pl.condDims[p.condOff + i];
      EqStep(sc, p, pl, i, hasEq, eqID);
      if d < sc.indexDims {
        hasEq, eqID := hasEq[d := true], eqID[d := pl.condIDs[p.condOff + i]];
      }
    }
  }

  lemma EqStart(sc: Schema, p: GroupPlan, pl: PoolsV, hasEq: seq<bool>, eqID: seq<nat>)
    requires |hasEq| == |eqID| == sc.indexDims && forall d :: 0 <= d < sc.indexDims ==> !hasEq[d]
    ensures EqsCovered(sc, p, pl, 0, hasEq, eqID)
  {
  }

  // A later equality takes over its dimension.
  lemma EqStep(sc: Schema, p: GroupPlan, pl: PoolsV, n: nat, hasEq: seq<bool>, eqID: seq<nat>)
    requires EqsCovered(sc, p, pl, n, hasEq, eqID) && p.condOff + n < |pl.condDims| == |pl.condIDs|
    ensures var d := pl.condDims[p.condOff + n];
            if d < sc.indexDims
            then EqsCovered(sc, p, pl, n + 1, hasEq[d := true], eqID[d := pl.condIDs[p.condOff + n]])
            else EqsCovered(sc, p, pl, n + 1, hasEq, eqID)
  {
    var j := p.condOff + n;
    var d := pl.condDims[j];
    assert EqLastAt(p, pl, n + 1, d, j);
    forall x | 0 <= x < sc.indexDims && x != d && hasEq[x] ensures EqFrom(p, pl, n + 1, x, eqID[x]) {
      var i: nat :| EqLastAt(p, pl, n, x, i) && i < |pl.condIDs| && pl.condIDs[i] == eqID[x];
      assert EqLastAt(p, pl, n + 1, x, i);
    }
  }

  // Dimension d's candidates are the base ids of window i.
  ghost predicate CandFrom(base: Dicts, pl: PoolsV, i: nat, d: nat, off: nat, n: nat) {
    && i < |pl.inWins| && pl.inWins[i].dim == d < |base| && pl.inWins[i].off == off && 0 < n <= pl.inWins[i].n
    && off + pl.inWins[i].n <= |pl.inPool|
    && (var win := WindowIds(pl.inWins[i], pl.inPool); |win| == pl.inWins[i].n && forall x :: 0 <= x < |win| ==>
         (win[x] < |base[d]| <==> x < n))
  }

  // The first window on dimension d.
  ghost predicate CandSome(base: Dicts, p: GroupPlan, pl: PoolsV, cnt: nat, d: nat, off: nat, n: nat) {
    exists i: nat :: WinFirstAt(p, pl, cnt, d, i) && CandFrom(base, pl, i, d, off, n)
  }

  ghost predicate WinFirstAt(p: GroupPlan, pl: PoolsV, cnt: nat, d: nat, i: nat) {
    && p.insOff <= i < p.insOff + cnt && i < |pl.inWins| && pl.inWins[i].dim == d
    && forall k :: p.insOff <= k < i ==> pl.inWins[k].dim != d
  }

  ghost predicate WinNone(p: GroupPlan, pl: PoolsV, cnt: nat, d: nat) {
    forall k :: p.insOff <= k < p.insOff + cnt && k < |pl.inWins| ==> pl.inWins[k].dim != d
  }

  // The base-resident ids of an ascending window are a non-empty prefix of it.
  method NarrowWindow(ghost base: Dicts, cardLen: nat, ghost comb: Dicts, pl: PoolsV, i: nat) returns (n: nat)
    requires i < |pl.inWins| && WinOK(comb, pl, i) && WinPossible(base, pl, i) && cardLen == |base[pl.inWins[i].dim]|
    ensures CandFrom(base, pl, i, pl.inWins[i].dim, pl.inWins[i].off, n)
  {
    var w := pl.inWins[i];
    var win := WindowIds(w, pl.inPool);
    n := Engine.LowerBound(win, cardLen);
    ghost var k :| 0 <= k < |win| && win[k] < |base[w.dim]|;
  }

  // An unpinned dimension has candidates exactly when a window stands on it: those of the
  // first one. A pinned dimension has none.
  ghost predicate CandsFrom(base: Dicts, p: GroupPlan, pl: PoolsV, cnt: nat, c: Cover) {
    && |c.hasEq| == |c.eqID| == |c.candOff| == |c.candN|
    && forall d :: 0 <= d < |c.candN| ==>
      if c.candN[d] > 0 then !c.hasEq[d] && CandSome(base, p, pl, cnt, d, c.candOff[d], c.candN[d])
      else c.hasEq[d] || WinNone(p, pl, cnt, d)
  }

  lemma CandsStep(base: Dicts, p: GroupPlan, pl: PoolsV, cnt: nat, c: Cover, d: nat, off: nat, n: nat)
    requires CandsFrom(base, p, pl, cnt, c) && d < |c.candN| && !c.hasEq[d] && c.candN[d] == 0
    requires CandFrom(base, pl, p.insOff + cnt, d, off, n) && n > 0
    requires p.insOff + cnt < |pl.inWins| && pl.inWins[p.insOff + cnt].dim == d
    ensures CandsFrom(base, p, pl, cnt + 1, c.(candOff := c.candOff[d := off], candN := c.candN[d := n]))
  {
    hide CandFrom;
    var c' := c.(candOff := c.candOff[d := off], candN := c.candN[d := n]);
    assert WinNone(p, pl, cnt, d);
    assert WinFirstAt(p, pl, cnt + 1, d, p.insOff + cnt);
    forall x | 0 <= x < |c.candN| && x != d && c.candN[x] > 0
      ensures CandSome(base, p, pl, cnt + 1, x, c.candOff[x], c.candN[x])
    {
      CandMore(base, p, pl, cnt, x, c.candOff[x], c.candN[x]);
    }
  }

  lemma CandMore(base: Dicts, p: GroupPlan, pl: PoolsV, cnt: nat, d: nat, off: nat, n: nat)
    requires CandSome(base, p, pl, cnt, d, off, n)
    ensures CandSome(base, p, pl, cnt + 1, d, off, n)
  {
    hide CandFrom;
    var i: nat :| WinFirstAt(p, pl, cnt, d, i) && CandFrom(base, pl, i, d, off, n);
    assert WinFirstAt(p, pl, cnt + 1, d, i);
  }

  lemma CandsSkip(base: Dicts, p: GroupPlan, pl: PoolsV, cnt: nat, c: Cover)
    requires CandsFrom(base, p, pl, cnt, c) && p.insOff + cnt < |pl.inWins|
    requires var d := pl.inWins[p.insOff + cnt].dim;
             d >= |c.candN| || c.hasEq[d] || c.candN[d] != 0
    ensures CandsFrom(base, p, pl, cnt + 1, c)
  {
    hide CandFrom, CandSome;
    forall d | 0 <= d < |c.candN| && c.candN[d] > 0
      ensures CandSome(base, p, pl, cnt + 1, d, c.candOff[d], c.candN[d])
    {
      CandMore(base, p, pl, cnt, d, c.candOff[d], c.candN[d]);
    }
  }

  // Narrows every usable window; the first one on a dimension wins, and a dimension an
  // equality pins keeps none.
  method CandCover(sc: Schema, base: Engine.Snapshot, p: GroupPlan, pl: PoolsV, hasEq: seq<bool>, eqID: seq<nat>,
          ghost comb: Dicts)
    returns (c: Cover)
    requires base.Valid(sc) && |hasEq| == |eqID| == sc.indexDims
    requires p.insOff + p.insN == |pl.inWins|
    requires forall i :: p.insOff <= i < |pl.inWins| ==> WinOK(comb, pl, i) && WinPossible(base.Model().dicts, pl, i)
    ensures c.hasEq == hasEq && c.eqID == eqID && |c.candN| == sc.indexDims
    ensures CandsFrom(base.Model().dicts, p, pl, p.insN, c)
  {
    hide SnapOK, WinOK, WinPossible, CandFrom, CandsFrom, CandSome;
    var zeros := seq(sc.indexDims, (_: nat) => 0);
    c := Cover(hasEq, eqID, zeros, zeros);
    CandsNone(base.Model().dicts, p, pl, c);
    for i := 0 to p.insN
      invariant c.hasEq == hasEq && c.eqID == eqID && |c.candN| == |c.candOff| == sc.indexDims
      invariant |c.hasEq| == |c.eqID| == sc.indexDims && CandsFrom(base.Model().dicts, p, pl, i, c)
    {
      var w := pl.inWins[p.insOff + i];
      if w.dim >= sc.indexDims || hasEq[w.dim] || c.candN[w.dim] != 0 {
        CandsSkip(base.Model().dicts, p, pl, i, c);
      } else {
        WinDim(sc, base.Model(), pl, p.insOff + i);
        var n := NarrowWindow(base.Model().dicts, |base.dicts[w.dim].vals|, comb, pl, p.insOff + i);
        CandPositive(base.Model().dicts, pl, p.insOff + i, n);
        CandsStep(base.Model().dicts, p, pl, i, c, w.dim, w.off, n);
        c := c.(candOff := c.candOff[w.dim := w.off], candN := c.candN[w.dim := n]);
      }
    }
  }

  lemma CandsNone(base: Dicts, p: GroupPlan, pl: PoolsV, c: Cover)
    requires |c.hasEq| == |c.eqID| == |c.candOff| == |c.candN| && forall d :: 0 <= d < |c.candN| ==> c.candN[d] == 0
    ensures CandsFrom(base, p, pl, 0, c)
  {
  }

  lemma WinDim(sc: Schema, s: SnapV, pl: PoolsV, i: nat)
    requires SnapOK(sc, s) && WinPossible(s.dicts, pl, i)
    ensures pl.inWins[i].dim < |s.dicts|
  {
  }

  lemma CandPositive(base: Dicts, pl: PoolsV, i: nat, n: nat)
    requires i < |pl.inWins| && CandFrom(base, pl, i, pl.inWins[i].dim, pl.inWins[i].off, n)
    ensures 0 < n <= pl.inWins[i].n
  {
  }

  // ---- The cover is sound and complete ----

  lemma CandAtWindow(base: Dicts, p: GroupPlan, pl: PoolsV, c: Cover, d: nat)
    requires CandsFrom(base, p, pl, p.insN, c) && d < |c.candN| && c.candN[d] > 0
    ensures c.candOff[d] + c.candN[d] <= |pl.inPool| && d < |base|
    ensures exists i :: p.insOff <= i < p.insOff + p.insN && i < |pl.inWins| && pl.inWins[i].dim == d
                        && (forall id :: id in WindowIds(pl.inWins[i], pl.inPool) && id < |base[d]| ==>
                             HasCand(c, pl.inPool, d, id))
    ensures forall x: nat :: x < c.candN[d] ==> CandAt(c, pl.inPool, d, x) < |base[d]|
  {
    assert CandSome(base, p, pl, p.insN, d, c.candOff[d], c.candN[d]);
    var i: nat :| WinFirstAt(p, pl, p.insN, d, i) && CandFrom(base, pl, i, d, c.candOff[d], c.candN[d]);
    var (w, n) := (pl.inWins[i], c.candN[d]);
    var win := WindowIds(w, pl.inPool);
    forall x: nat | x < n ensures CandAt(c, pl.inPool, d, x) == win[x] && win[x] < |base[d]| {
    }
    forall id | id in win && id < |base[d]| ensures HasCand(c, pl.inPool, d, id) {
      var x :| 0 <= x < |win| && win[x] == id;
      assert CandAt(c, pl.inPool, d, x) == id;
    }
  }

  lemma CoverCands(sc: Schema, m: ViewV, g: Group, st: Start, pl: PoolsV, c: Cover)
    requires Resolved(sc, m, g, st, pl) && Shaped(sc, c) && BasePossible(m.base.dicts, Segment(st, pl), pl)
    requires EqsCovered(sc, Segment(st, pl), pl, Segment(st, pl).condN, c.hasEq, c.eqID)
    requires CandsFrom(m.base.dicts, Segment(st, pl), pl, Segment(st, pl).insN, c)
    ensures CandsOK(sc, m.base.dicts, c, pl.inPool)
  {
    hide Resolved, CandAt, HasCand;
    var (p, base) := (Segment(st, pl), m.base.dicts);
    SegmentWF(sc, m, g, st, pl);
    forall d | 0 <= d < sc.indexDims
      ensures c.hasEq[d] ==> c.candN[d] == 0 && c.eqID[d] < |base[d]|
      ensures c.candN[d] > 0 ==> c.candOff[d] + c.candN[d] <= |pl.inPool|
      ensures forall x: nat :: x < c.candN[d] ==> CandAt(c, pl.inPool, d, x) < |base[d]|
    {
      if c.hasEq[d] {
        assert EqFrom(p, pl, p.condN, d, c.eqID[d]);
        var i: nat :| EqLastAt(p, pl, p.condN, d, i) && i < |pl.condIDs| && pl.condIDs[i] == c.eqID[d];
        assert EqPossible(base, pl, i);
      }
      if c.candN[d] > 0 {
        CandAtWindow(base, p, pl, c, d);
      }
    }
  }
}
