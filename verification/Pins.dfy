// The resolved pools against the query: which equality or window covers a dimension, and
// whether the base can match at all.
module Pins {
  import opened Decimal
  import opened Table
  import opened Oracle
  import Upsert
  import opened Scratch
  import opened Conditions
  import opened Reach
  import Resolve
  import opened Planner
  import opened Expand
  import Odometer
  import Walk

  // ---- A dimension's pin, in the pools ----

  ghost predicate NoEq(st: Start, pl: PoolsV, d: nat) {
    forall k :: st.cond <= k < |pl.condDims| ==> pl.condDims[k] != d
  }

  ghost predicate LastEq(st: Start, pl: PoolsV, d: nat, j: nat) {
    st.cond <= j < |pl.condDims| && pl.condDims[j] == d && forall k :: j < k < |pl.condDims| ==> pl.condDims[k] != d
  }

  ghost predicate NoWin(st: Start, pl: PoolsV, d: nat) {
    forall k :: st.ins <= k < |pl.inWins| ==> pl.inWins[k].dim != d
  }

  ghost predicate FirstWin(st: Start, pl: PoolsV, d: nat, j: nat) {
    st.ins <= j < |pl.inWins| && pl.inWins[j].dim == d && forall k :: st.ins <= k < j ==> pl.inWins[k].dim != d
  }

  // Window j is the resolved form of this list.
  ghost predicate WinLists(sc: Schema, comb: Dicts, d: nat, ins: seq<Text>, pl: PoolsV, j: nat) {
    && j < |pl.inWins| && d < |sc.dims| == |comb|
    && IdsOf(sc, comb, d, ins, |ins|, WindowIds(pl.inWins[j], pl.inPool))
    && WinCounts(sc, comb, d, ins, |ins|, WindowIds(pl.inWins[j], pl.inPool))
    && Sourced(sc, comb, d, ins, |ins|, WindowIds(pl.inWins[j], pl.inPool))
  }

  ghost predicate EqIs(sc: Schema, comb: Dicts, d: nat, s: Text, pl: PoolsV, j: nat) {
    && j < |pl.condIDs| && d < |sc.dims| == |comb|
    && ValueOf(sc, d, s).Some? && HasId(comb[d], ValueOf(sc, d, s).value, pl.condIDs[j])
  }

  ghost predicate PinIn(sc: Schema, comb: Dicts, pin: Pin, st: Start, pl: PoolsV, d: nat) {
    match pin
    case Open => NoEq(st, pl, d) && NoWin(st, pl, d)
    case Pinned(s) => exists j: nat :: LastEq(st, pl, d, j) && EqIs(sc, comb, d, s, pl, j)
    case Listed(ins) => NoEq(st, pl, d) && exists j: nat :: FirstWin(st, pl, d, j) && WinLists(sc, comb, d, ins, pl, j)
  }

  lemma PinStay(sc: Schema, comb: Dicts, pin: Pin, c: Cond, st: Start, a: PoolsV, b: PoolsV, d: nat)
    requires |comb| == |sc.dims| && d < |sc.dims| && StartsIn(st, a) && PoolsOK(a) && Resolve.Pushed(sc, comb, c, a, b)
    requires PinIn(sc, comb, pin, st, a, d) && (sc.DimIndex(c.dim) != d || c.range.Some?)
    ensures PinIn(sc, comb, pin, st, b, d)
  {
    hide IdsOf, WinCounts, Sourced, ValueOf, HasId, Resolve.AscendingIds;
    if pin.Pinned? {
      var j: nat :| LastEq(st, a, d, j) && EqIs(sc, comb, d, pin.value, a, j);
      assert LastEq(st, b, d, j) && EqIs(sc, comb, d, pin.value, b, j);
    } else if pin.Listed? {
      var j: nat :| FirstWin(st, a, d, j) && WinLists(sc, comb, d, pin.ins, a, j);
      WinStays(sc, comb, d, pin.ins, a, b, j);
      assert FirstWin(st, b, d, j);
    }
  }

  lemma WinStays(sc: Schema, comb: Dicts, d: nat, ins: seq<Text>, a: PoolsV, b: PoolsV, j: nat)
    requires WinLists(sc, comb, d, ins, a, j) && PoolsOK(a) && a.inWins <= b.inWins && a.inPool <= b.inPool
    ensures WinLists(sc, comb, d, ins, b, j)
  {
    hide IdsOf, WinCounts, Sourced;
    var w := a.inWins[j];
    assert b.inWins[j] == w && a.inPool[w.off..w.off + w.n] == b.inPool[w.off..w.off + w.n];
  }

  lemma PinList(sc: Schema, comb: Dicts, pin: Pin, c: Cond, st: Start, a: PoolsV, b: PoolsV, d: nat)
    requires |comb| == |sc.dims| && d < |sc.dims| && StartsIn(st, a) && PoolsOK(a) && Resolve.Pushed(sc, comb, c, a, b)
    requires PinIn(sc, comb, pin, st, a, d) && sc.DimIndex(c.dim) == d && c.range.None? && |c.ins| > 0
    ensures PinIn(sc, comb, PinWith(sc, pin, c, d), st, b, d)
  {
    hide IdsOf, WinCounts, Sourced, ValueOf, HasId, Resolve.AscendingIds;
    if pin.Pinned? {
      var j: nat :| LastEq(st, a, d, j) && EqIs(sc, comb, d, pin.value, a, j);
      assert LastEq(st, b, d, j) && EqIs(sc, comb, d, pin.value, b, j);
    } else if pin.Listed? {
      var j: nat :| FirstWin(st, a, d, j) && WinLists(sc, comb, d, pin.ins, a, j);
      WinStays(sc, comb, d, pin.ins, a, b, j);
      assert FirstWin(st, b, d, j);
    } else {
      var j := |a.inWins|;
      assert WindowIds(b.inWins[j], b.inPool) == b.inPool[|a.inPool|..];
      assert FirstWin(st, b, d, j) && WinLists(sc, comb, d, c.ins, b, j);
    }
  }

  lemma PinEq(sc: Schema, comb: Dicts, pin: Pin, c: Cond, st: Start, a: PoolsV, b: PoolsV, d: nat)
    requires |comb| == |sc.dims| && d < |sc.dims| && StartsIn(st, a) && PoolsOK(a) && Resolve.Pushed(sc, comb, c, a, b)
    requires sc.DimIndex(c.dim) == d && c.range.None? && |c.ins| == 0
    ensures PinIn(sc, comb, PinWith(sc, pin, c, d), st, b, d)
  {
    hide ValueOf, HasId;
    var j := |a.condDims|;
    assert LastEq(st, b, d, j) && EqIs(sc, comb, d, c.value, b, j);
  }

  // ---- Whether the base can match ----

  // One more condition: one more equality or window to reach the base with.
  lemma BaseStep(sc: Schema, comb: Dicts, base: Dicts, c: Cond, st: Start, a: PoolsV, b: PoolsV)
    requires DictsOK(sc, comb) && Extends(base, comb) && StartsIn(st, a) && PoolsOK(a) && PoolsOK(b)
               && Resolve.Pushed(sc, comb, c, a, b)
    requires StartsIn(st, b)
    ensures BasePossible(base, Segment(st, b), b) <==> BasePossible(base, Segment(st, a), a) && InBase(sc, base, c)
  {
    hide IdsOf, WinCounts, Sourced, ValueOf, Resolve.AscendingIds, EqPossible, WinPossible, DictOK, InBase;
    forall i | st.cond <= i < |a.condDims| ensures EqPossible(base, a, i) <==> EqPossible(base, b, i) {
      EqStays(base, a, b, i);
    }
    forall i | st.ins <= i < |a.inWins| ensures WinPossible(base, a, i) <==> WinPossible(base, b, i) {
      WinStaysPossible(base, a, b, i);
    }
    var d := sc.DimIndex(c.dim);
    if c.range.Some? {
      RangeInBase(sc, base, c);
    } else if |c.ins| > 0 {
      var w := b.inWins[|a.inWins|];
      assert WindowIds(w, b.inPool) == b.inPool[|a.inPool|..];
      ListInBase(sc, comb, base, c, d, b, |a.inWins|);
    } else {
      EqInBase(sc, comb, base, c, d, b, |a.condDims|);
    }
  }

  lemma RangeInBase(sc: Schema, base: Dicts, c: Cond)
    requires c.range.Some?
    ensures InBase(sc, base, c)
  {
  }

  lemma EqStays(base: Dicts, a: PoolsV, b: PoolsV, i: nat)
    requires i < |a.condDims| == |a.condIDs| && a.condDims <= b.condDims && a.condIDs <= b.condIDs
               && |b.condDims| == |b.condIDs|
    ensures EqPossible(base, a, i) <==> EqPossible(base, b, i)
  {
  }

  lemma WinStaysPossible(base: Dicts, a: PoolsV, b: PoolsV, i: nat)
    requires i < |a.inWins| && PoolsOK(a) && a.inWins <= b.inWins && a.inPool <= b.inPool
    ensures WinPossible(base, a, i) <==> WinPossible(base, b, i)
  {
    hide Resolve.ReachesBaseAt;
    var w := a.inWins[i];
    assert b.inWins[i] == w && a.inPool[w.off..w.off + w.n] == b.inPool[w.off..w.off + w.n];
  }

  // A value of the combined dictionary is a base value exactly when its id is a base id.
  lemma IdTells(sc: Schema, comb: Dicts, base: Dicts, d: nat, x: Value, id: nat)
    requires DictsOK(sc, comb) && Extends(base, comb) && d < |comb| && HasId(comb[d], x, id)
    ensures id < |base[d]| <==> x in base[d]
  {
    assert base[d] <= comb[d] && DictOK(comb[d], sc.dims[d].isInt);
    if id < |base[d]| {
      assert base[d][id] == x;
    }
    if x in base[d] {
      var k :| 0 <= k < |base[d]| && base[d][k] == x;
      assert comb[d][k] == x;
    }
  }

  lemma EqInBase(sc: Schema, comb: Dicts, base: Dicts, c: Cond, d: nat, b: PoolsV, j: nat)
    requires DictsOK(sc, comb) && Extends(base, comb) && d < |comb| && sc.DimIndex(c.dim) == d && c.range.None?
               && |c.ins| == 0
    requires j < |b.condDims| == |b.condIDs| && b.condDims[j] == d && EqIs(sc, comb, d, c.value, b, j)
    ensures EqPossible(base, b, j) <==> InBase(sc, base, c)
  {
    hide ValueOf;
    IdTells(sc, comb, base, d, ValueOf(sc, d, c.value).value, b.condIDs[j]);
  }

  lemma ListInBase(sc: Schema, comb: Dicts, base: Dicts, c: Cond, d: nat, b: PoolsV, j: nat)
    requires DictsOK(sc, comb) && Extends(base, comb) && d < |comb| && sc.DimIndex(c.dim) == d && c.range.None?
               && |c.ins| > 0
    requires j < |b.inWins| && b.inWins[j].dim == d
               && IdsOf(sc, comb, d, c.ins, |c.ins|, WindowIds(b.inWins[j], b.inPool))
    ensures WinPossible(base, b, j) <==> InBase(sc, base, c)
  {
    hide ValueOf, HasId, DictsOK, Extends;
    var win := WindowIds(b.inWins[j], b.inPool);
    if WinPossible(base, b, j) {
      var k :| 0 <= k < |win| && win[k] < |base[d]|;
      var i :| 0 <= i < |c.ins| && ValueOf(sc, d, c.ins[i]).Some?
        && HasId(comb[d], ValueOf(sc, d, c.ins[i]).value, win[k]);
      IdTells(sc, comb, base, d, ValueOf(sc, d, c.ins[i]).value, win[k]);
    }
    if InBase(sc, base, c) {
      ExtendsWidth(base, comb);
      var i :| 0 <= i < |c.ins| && ValueOf(sc, d, c.ins[i]).Some? && ValueOf(sc, d, c.ins[i]).value in base[d];
      var id := BaseId(base, comb, d, ValueOf(sc, d, c.ins[i]).value);
      assert id in win;
      var k :| 0 <= k < |win| && win[k] == id;
    }
  }

  lemma ExtendsWidth(base: Dicts, comb: Dicts)
    requires Extends(base, comb)
    ensures |base| == |comb|
  {
  }

  lemma BaseId(base: Dicts, comb: Dicts, d: nat, x: Value) returns (id: nat)
    requires Extends(base, comb) && d < |comb| && x in base[d]
    ensures id < |base[d]| && HasId(comb[d], x, id)
  {
    var k :| 0 <= k < |base[d]| && base[d][k] == x;
    id := k;
    assert base[d] <= comb[d];
  }

  // ---- The whole segment ----

  // Every dimension's pin is in the pools, and the base is possible exactly as the query says.
  ghost predicate SegPins(sc: Schema, comb: Dicts, base: Dicts, g: Group, st: Start, pl: PoolsV) {
    && |comb| == |sc.dims| && StartsIn(st, pl)
    && (forall d: nat :: d < |sc.dims| ==> PinIn(sc, comb, PinOf(sc, g, d), st, pl, d))
    && (BasePossible(base, Segment(st, pl), pl) <==> forall i :: 0 <= i < |g| ==> InBase(sc, base, g[i]))
  }

  lemma PinsStart(sc: Schema, comb: Dicts, base: Dicts, pl: PoolsV)
    requires |comb| == |sc.dims|
    ensures SegPins(sc, comb, base, [], Start(|pl.condDims|, |pl.inWins|, |pl.rWins|), pl)
  {
  }

  lemma PinsStep(sc: Schema, comb: Dicts, base: Dicts, g: Group, c: Cond, st: Start, a: PoolsV, b: PoolsV)
    requires DictsOK(sc, comb) && Extends(base, comb) && SegPins(sc, comb, base, g, st, a)
    requires PoolsOK(a) && PoolsOK(b) && StartsIn(st, b) && Resolve.Pushed(sc, comb, c, a, b)
    ensures SegPins(sc, comb, base, g + [c], st, b)
  {
    hide Resolve.Pushed, PinIn, InBase, BasePossible, DictsOK, Extends, PoolsOK, PinWith;
    var h := g + [c];
    assert h[..|g|] == g;
    forall d: nat | d < |sc.dims| ensures PinIn(sc, comb, PinOf(sc, h, d), st, b, d) {
      PinNext(sc, comb, PinOf(sc, g, d), c, st, a, b, d);
    }
    BaseStep(sc, comb, base, c, st, a, b);
    assert forall i :: 0 <= i < |g| ==> h[i] == g[i];
    assert h[|g|] == c;
  }

  lemma PinNext(sc: Schema, comb: Dicts, pin: Pin, c: Cond, st: Start, a: PoolsV, b: PoolsV, d: nat)
    requires |comb| == |sc.dims| && d < |sc.dims| && StartsIn(st, a) && PoolsOK(a) && Resolve.Pushed(sc, comb, c, a, b)
    requires PinIn(sc, comb, pin, st, a, d)
    ensures PinIn(sc, comb, PinWith(sc, pin, c, d), st, b, d)
  {
    hide Resolve.Pushed, PinIn, PoolsOK;
    if sc.DimIndex(c.dim) != d || c.range.Some? {
      PinStay(sc, comb, pin, c, st, a, b, d);
    } else if |c.ins| > 0 {
      PinList(sc, comb, pin, c, st, a, b, d);
    } else {
      PinEq(sc, comb, pin, c, st, a, b, d);
    }
  }

  // ---- The cover is the query's ----

  ghost predicate DimIs(sc: Schema, comb: Dicts, base: Dicts, pin: Pin, c: Cover, pool: seq<nat>, d: nat)
    requires d < |sc.dims| == |comb| == |base| && d < sc.indexDims && Shaped(sc, c)
  {
    match pin
    case Open => !c.hasEq[d] && c.candN[d] == 0
    case Pinned(s) =>
      && c.hasEq[d] && c.candN[d] == 0 && ValueOf(sc, d, s).Some? && HasId(comb[d], ValueOf(sc, d, s).value, c.eqID[d])
      && HasSrc(sc, comb, base, pin, c, pool, d)
    case Listed(ins) =>
      && !c.hasEq[d] && c.candN[d] == ListCount(sc, base[d], d, ins, |ins|) && c.candN[d] > 0
      && (forall id: nat :: id < |base[d]| ==> (HasCand(c, pool, d, id) <==> Names(sc, d, ins, base[d][id])))
      && HasSrc(sc, comb, base, pin, c, pool, d)
  }

  // src[x] is the entry candidate x comes from: every entry the base knows, once.
  ghost predicate SrcOK(sc: Schema, comb: Dicts, base: Dicts, pin: Pin, c: Cover, pool: seq<nat>, d: nat, src: seq<nat>)
    requires d < |sc.dims| == |comb| == |base| && d < |c.candN|
  {
    && |src| == Radix(c)[d] && Distinct(src)
    && (forall x: nat :: x < |src| ==> CandAt(c, pool, d, x) < |comb[d]|
                                       && PickHolds(sc, pin, src[x], d, comb[d][CandAt(c, pool, d, x)]))
    && (forall i: nat, v :: v in base[d] && PickHolds(sc, pin, i, d, v) ==> i in src)
  }

  ghost predicate HasSrc(sc: Schema, comb: Dicts, base: Dicts, pin: Pin, c: Cover, pool: seq<nat>, d: nat)
    requires d < |sc.dims| == |comb| == |base| && d < |c.candN|
  {
    exists src :: SrcOK(sc, comb, base, pin, c, pool, d, src)
  }

  ghost predicate Names(sc: Schema, d: nat, ins: seq<Text>, v: Value)
    requires d < |sc.dims|
  {
    exists i :: 0 <= i < |ins| && ValueOf(sc, d, ins[i]) == Some(v)
  }

  ghost predicate CoverIs(sc: Schema, comb: Dicts, base: Dicts, g: Group, c: Cover, pool: seq<nat>) {
    && sc.indexDims <= |sc.dims| == |comb| == |base| && Shaped(sc, c)
    && forall d: nat :: d < sc.indexDims ==> DimIs(sc, comb, base, PinOf(sc, g, d), c, pool, d)
  }

  // What the two covering loops built is what the query says.
  lemma CoverIsPins(sc: Schema, comb: Dicts, base: Dicts, g: Group, st: Start, pl: PoolsV, c: Cover)
    requires DictsOK(sc, comb) && Extends(base, comb) && sc.indexDims <= |sc.dims| && Shaped(sc, c)
    requires SegPins(sc, comb, base, g, st, pl) && PoolsOK(pl)
    requires EqsCovered(sc, Segment(st, pl), pl, Segment(st, pl).condN, c.hasEq, c.eqID)
    requires CandsFrom(base, Segment(st, pl), pl, Segment(st, pl).insN, c)
    ensures CoverIs(sc, comb, base, g, c, pl.inPool)
  {
    hide PinIn, EqsCovered, CandsFrom, DimIs, DictsOK, PinOf;
    ExtendsWidth(base, comb);
    forall d: nat | d < sc.indexDims ensures DimIs(sc, comb, base, PinOf(sc, g, d), c, pl.inPool, d) {
      var pin := PinOf(sc, g, d);
      match pin
      case Open => OpenDim(sc, comb, base, st, pl, c, d);
      case Pinned(s) => PinnedDim(sc, comb, base, st, pl, c, d, s);
      case Listed(ins) => ListedDim(sc, comb, base, st, pl, c, d, ins);
    }
  }

  lemma OpenDim(sc: Schema, comb: Dicts, base: Dicts, st: Start, pl: PoolsV, c: Cover, d: nat)
    requires d < |sc.dims| == |comb| == |base| && d < sc.indexDims && Shaped(sc, c) && StartsIn(st, pl)
    requires PinIn(sc, comb, Open, st, pl, d)
    requires EqsCovered(sc, Segment(st, pl), pl, Segment(st, pl).condN, c.hasEq, c.eqID)
    requires CandsFrom(base, Segment(st, pl), pl, Segment(st, pl).insN, c)
    ensures DimIs(sc, comb, base, Open, c, pl.inPool, d)
  {
    hide EqFrom, CandSome, CandFrom;
    EqSeen(st, pl, d, c.eqID[d]);
    WinSeen(base, st, pl, d, c.candOff[d], c.candN[d]);
  }

  lemma EqSeen(st: Start, pl: PoolsV, d: nat, id: nat)
    requires StartsIn(st, pl)
    ensures EqFrom(Segment(st, pl), pl, Segment(st, pl).condN, d, id) ==> !NoEq(st, pl, d)
  {
  }

  lemma WinSeen(base: Dicts, st: Start, pl: PoolsV, d: nat, off: nat, n: nat)
    requires StartsIn(st, pl)
    ensures CandSome(base, Segment(st, pl), pl, Segment(st, pl).insN, d, off, n) ==> !NoWin(st, pl, d)
  {
    hide CandFrom;
  }

  lemma PinnedDim(sc: Schema, comb: Dicts, base: Dicts, st: Start, pl: PoolsV, c: Cover, d: nat, s: Text)
    requires d < |sc.dims| == |comb| == |base| && d < sc.indexDims && Shaped(sc, c) && StartsIn(st, pl) && PoolsOK(pl)
    requires PinIn(sc, comb, Pinned(s), st, pl, d)
    requires EqsCovered(sc, Segment(st, pl), pl, Segment(st, pl).condN, c.hasEq, c.eqID)
    requires CandsFrom(base, Segment(st, pl), pl, Segment(st, pl).insN, c)
    ensures DimIs(sc, comb, base, Pinned(s), c, pl.inPool, d)
  {
    hide CandSome, ValueOf, HasId, WinNone, HasSrc;
    var p := Segment(st, pl);
    var j: nat :| LastEq(st, pl, d, j) && EqIs(sc, comb, d, s, pl, j);
    assert c.hasEq[d];
    assert EqFrom(p, pl, p.condN, d, c.eqID[d]);
    var i: nat :| EqLastAt(p, pl, p.condN, d, i) && i < |pl.condIDs| && pl.condIDs[i] == c.eqID[d];
    assert i == j;
    EqSrc(sc, comb, base, s, c, pl.inPool, d);
  }

  lemma EqSrc(sc: Schema, comb: Dicts, base: Dicts, s: Text, c: Cover, pool: seq<nat>, d: nat)
    requires d < |sc.dims| == |comb| == |base| && d < |c.hasEq| == |c.eqID| == |c.candN| && c.hasEq[d]
               && c.candN[d] == 0
    requires ValueOf(sc, d, s).Some? && HasId(comb[d], ValueOf(sc, d, s).value, c.eqID[d])
    ensures HasSrc(sc, comb, base, Pinned(s), c, pool, d)
  {
    hide ValueOf;
    var src: seq<nat> := [0];
    assert 0 in src;
    assert SrcOK(sc, comb, base, Pinned(s), c, pool, d, src);
  }

  lemma ListedDim(sc: Schema, comb: Dicts, base: Dicts, st: Start, pl: PoolsV, c: Cover, d: nat, ins: seq<Text>)
    requires DictsOK(sc, comb) && Extends(base, comb) && StartsIn(st, pl) && PoolsOK(pl)
    requires d < |sc.dims| == |comb| == |base| && d < sc.indexDims && Shaped(sc, c)
    requires PinIn(sc, comb, Listed(ins), st, pl, d)
    requires EqsCovered(sc, Segment(st, pl), pl, Segment(st, pl).condN, c.hasEq, c.eqID)
    requires CandsFrom(base, Segment(st, pl), pl, Segment(st, pl).insN, c)
    ensures DimIs(sc, comb, base, Listed(ins), c, pl.inPool, d)
  {
    hide WinLists, CandFrom, DictsOK, Extends, HasCand, Names, ListCount, EqFrom, HasSrc;
    var p := Segment(st, pl);
    var j: nat :| FirstWin(st, pl, d, j) && WinLists(sc, comb, d, ins, pl, j);
    EqSeen(st, pl, d, c.eqID[d]);
    assert !WinNone(p, pl, p.insN, d);
    assert CandSome(base, p, pl, p.insN, d, c.candOff[d], c.candN[d]);
    var i: nat :| WinFirstAt(p, pl, p.insN, d, i) && CandFrom(base, pl, i, d, c.candOff[d], c.candN[d]);
    assert i == j;
    CandsAre(sc, comb, base, pl, c, d, ins, j);
    ListSrc(sc, comb, base, pl, c, d, ins, j);
  }

  lemma ListSrc(sc: Schema, comb: Dicts, base: Dicts, pl: PoolsV, c: Cover, d: nat, ins: seq<Text>, j: nat)
    requires DictsOK(sc, comb) && Extends(base, comb) && d < |sc.dims| == |comb| == |base|
    requires d < |c.hasEq| == |c.eqID| == |c.candOff| == |c.candN| && !c.hasEq[d]
    requires WinLists(sc, comb, d, ins, pl, j) && CandFrom(base, pl, j, d, c.candOff[d], c.candN[d])
    ensures HasSrc(sc, comb, base, Listed(ins), c, pl.inPool, d)
  {
    hide IdsOf, WinCounts, CandFrom, CandAt, WindowIds, DictsOK, Extends, PickHolds, Distinct, SourcedBy;
    var (win, n) := (WindowIds(pl.inWins[j], pl.inPool), c.candN[d]);
    var all :| SourcedBy(sc, comb, d, ins, |ins|, win, all);
    CandsWin(base, pl, c, d, j);
    SourceSize(sc, comb, d, ins, win, all, n);
    forall x: nat | x < n
      ensures CandAt(c, pl.inPool, d, x) < |comb[d]|
                && PickHolds(sc, Listed(ins), all[..n][x], d, comb[d][CandAt(c, pl.inPool, d, x)])
    {
      SourceNames(sc, comb, d, ins, win, all, x);
    }
    forall i: nat, v | v in base[d] && PickHolds(sc, Listed(ins), i, d, v) ensures i in all[..n] {
      SourceFound(sc, comb, base, d, ins, win, all, n, i, v);
    }
    assert SrcOK(sc, comb, base, Listed(ins), c, pl.inPool, d, all[..n]);
  }

  lemma SourceSize(sc: Schema, comb: Dicts, d: nat, ins: seq<Text>, win: seq<nat>, all: seq<nat>, n: nat)
    requires d < |sc.dims| == |comb| && SourcedBy(sc, comb, d, ins, |ins|, win, all) && n <= |win|
    ensures |all| == |win| && Distinct(all[..n])
  {
    hide ValueOf, HasId;
  }

  lemma SourceNames(sc: Schema, comb: Dicts, d: nat, ins: seq<Text>, win: seq<nat>, all: seq<nat>, x: nat)
    requires d < |sc.dims| == |comb| && SourcedBy(sc, comb, d, ins, |ins|, win, all) && x < |win| == |all|
    ensures win[x] < |comb[d]| && PickHolds(sc, Listed(ins), all[x], d, comb[d][win[x]])
  {
    hide ValueOf, Distinct;
  }

  lemma SourceFound(sc: Schema, comb: Dicts, base: Dicts, d: nat, ins: seq<Text>, win: seq<nat>, all: seq<nat>,
          n: nat, i: nat, v: Value)
    requires DictsOK(sc, comb) && Extends(base, comb) && d < |sc.dims| == |comb| == |base|
    requires SourcedBy(sc, comb, d, ins, |ins|, win, all) && n <= |win| == |all|
    requires forall x: nat :: x < |win| ==> (win[x] < |base[d]| <==> x < n)
    requires v in base[d] && PickHolds(sc, Listed(ins), i, d, v)
    ensures i in all[..n]
  {
    hide ValueOf, Distinct, DictsOK, Extends;
    var id := BaseId(base, comb, d, v);
    assert v in comb[d];
    var x :| 0 <= x < |all| && all[x] == i;
    SameId(sc, comb, d, v, win[x], id);
    assert all[..n][x] == i;
  }

  lemma CandsWin(base: Dicts, pl: PoolsV, c: Cover, d: nat, j: nat)
    requires d < |c.hasEq| == |c.eqID| == |c.candOff| == |c.candN| && !c.hasEq[d]
    requires CandFrom(base, pl, j, d, c.candOff[d], c.candN[d])
    ensures j < |pl.inWins| && d < |base|
    ensures var win := WindowIds(pl.inWins[j], pl.inPool);
            c.candN[d] <= |win| && Radix(c)[d] == c.candN[d]
            && (forall x: nat :: x < c.candN[d] ==> CandAt(c, pl.inPool, d, x) == win[x])
            && (forall x: nat :: x < |win| ==> (win[x] < |base[d]| <==> x < c.candN[d]))
  {
  }

  // A value has one id.
  lemma SameId(sc: Schema, comb: Dicts, d: nat, v: Value, a: nat, b: nat)
    requires DictsOK(sc, comb) && d < |comb| && HasId(comb[d], v, a) && HasId(comb[d], v, b)
    ensures a == b
  {
    assert DictOK(comb[d], sc.dims[d].isInt);
  }

  // The candidates of the first window: counted and named as the list says.
  lemma CandsAre(sc: Schema, comb: Dicts, base: Dicts, pl: PoolsV, c: Cover, d: nat, ins: seq<Text>, j: nat)
    requires DictsOK(sc, comb) && Extends(base, comb) && d < |sc.dims| == |comb| == |base|
    requires d < |c.hasEq| == |c.eqID| == |c.candOff| == |c.candN| && !c.hasEq[d]
    requires WinLists(sc, comb, d, ins, pl, j) && CandFrom(base, pl, j, d, c.candOff[d], c.candN[d])
    ensures c.candN[d] == ListCount(sc, base[d], d, ins, |ins|)
    ensures forall id: nat :: id < |base[d]| ==> (HasCand(c, pl.inPool, d, id) <==> Names(sc, d, ins, base[d][id]))
  {
    hide DictsOK, ListCount, ValueOf, IdsOf, WinCounts;
    var (win, n) := (WindowIds(pl.inWins[j], pl.inPool), c.candN[d]);
    CountPrefix(win, |base[d]|, n);
    assert base[d] <= comb[d];
    assert comb[d][..|base[d]|] == base[d];
    assert CountBelow(win, |base[d]|) == ListCount(sc, comb[d][..|base[d]|], d, ins, |ins|) by {
      WinCountAt(sc, comb, d, ins, win, |base[d]|);
    }
    forall x: nat | x < n ensures CandAt(c, pl.inPool, d, x) == win[x] {
    }
    forall id: nat | id < |base[d]| ensures HasCand(c, pl.inPool, d, id) <==> Names(sc, d, ins, base[d][id]) {
      assert comb[d][id] == base[d][id];
      WinNames(sc, comb, d, ins, win, id);
      if HasCand(c, pl.inPool, d, id) {
        var x: nat :| x < n && CandAt(c, pl.inPool, d, x) == id;
        assert win[x] == id;
      }
      if id in win {
        var x :| 0 <= x < |win| && win[x] == id;
        assert x < n && CandAt(c, pl.inPool, d, x) == id;
      }
    }
  }

  lemma WinCountAt(sc: Schema, comb: Dicts, d: nat, ins: seq<Text>, win: seq<nat>, limit: nat)
    requires d < |sc.dims| == |comb| && WinCounts(sc, comb, d, ins, |ins|, win) && limit <= |comb[d]|
    ensures CountBelow(win, limit) == ListCount(sc, comb[d][..limit], d, ins, |ins|)
  {
  }

  lemma WinNames(sc: Schema, comb: Dicts, d: nat, ins: seq<Text>, win: seq<nat>, id: nat)
    requires DictsOK(sc, comb) && d < |sc.dims| == |comb| && id < |comb[d]| && IdsOf(sc, comb, d, ins, |ins|, win)
    ensures id in win <==> Names(sc, d, ins, comb[d][id])
  {
    hide ValueOf, DictsOK;
    if id in win {
      var k :| 0 <= k < |win| && win[k] == id;
      var i :| 0 <= i < |ins| && ValueOf(sc, d, ins[i]).Some? && HasId(comb[d], ValueOf(sc, d, ins[i]).value, win[k]);
      assert ValueOf(sc, d, ins[i]) == Some(comb[d][id]);
    }
    if Names(sc, d, ins, comb[d][id]) {
      var i :| 0 <= i < |ins| && ValueOf(sc, d, ins[i]) == Some(comb[d][id]);
      assert HasId(comb[d], ValueOf(sc, d, ins[i]).value, id);
    }
  }

  // A base row is within the cover exactly when its tuple holds the query's prefix.
  lemma WithinIsPrefix(sc: Schema, comb: Dicts, base: Dicts, g: Group, c: Cover, pool: seq<nat>, rows: seq<Row>,
          k: nat, r: nat)
    requires DictsOK(sc, comb) && Extends(base, comb) && CoverIs(sc, comb, base, g, c, pool)
    requires k <= sc.indexDims && r < |rows| && InRange(base, rows[r].ids)
    ensures Within(rows, c, pool, k, r) <==> PrefixHolds(sc, g, Decode(comb, rows[r].ids), k)
  {
    hide DictsOK, Extends, DimIs, DimHolds, HasCand, PinOf, Decode, HasSrc;
    var t := Decode(comb, rows[r].ids);
    ExtendsWidth(base, comb);
    DecodeLen(comb, rows[r].ids);
    forall d: nat | d < k
      ensures (c.hasEq[d] ==> RowId(rows, r, d) == c.eqID[d])
                && (c.candN[d] > 0 ==> HasCand(c, pool, d, RowId(rows, r, d)))
              <==> DimHolds(sc, PinOf(sc, g, d), d, t[d])
    {
      DimWithin(sc, comb, base, PinOf(sc, g, d), c, pool, rows[r].ids, d);
    }
  }

  lemma DecodeLen(comb: Dicts, ids: seq<nat>)
    ensures |Decode(comb, ids)| == |ids|
  {
  }

  lemma DimWithin(sc: Schema, comb: Dicts, base: Dicts, pin: Pin, c: Cover, pool: seq<nat>, ids: seq<nat>, d: nat)
    requires DictsOK(sc, comb) && Extends(base, comb) && InRange(base, ids)
    requires d < |sc.dims| == |comb| == |base| && d < sc.indexDims && Shaped(sc, c)
               && DimIs(sc, comb, base, pin, c, pool, d)
    ensures (c.hasEq[d] ==> ids[d] == c.eqID[d]) && (c.candN[d] > 0 ==> HasCand(c, pool, d, ids[d]))
            <==> DimHolds(sc, pin, d, Decode(comb, ids)[d])
  {
    hide ValueOf, HasCand, ListCount, HasSrc;
    assert base[d] <= comb[d] && DictOK(comb[d], sc.dims[d].isInt);
    assert Decode(comb, ids)[d] == comb[d][ids[d]] == base[d][ids[d]];
  }

  // ---- Depth ----

  lemma {:induction false} CombosAre(sc: Schema, comb: Dicts, base: Dicts, g: Group, c: Cover, pool: seq<nat>, k: nat)
    requires CoverIs(sc, comb, base, g, c, pool) && k <= sc.indexDims
    requires forall d :: 0 <= d < k ==> c.hasEq[d] || c.candN[d] > 0
    ensures Odometer.Prod(Radix(c)[..k]) == Combos(sc, base, g, k)
  {
    hide PinOf, HasCand, ListCount, HasSrc;
    if k == 0 {
    } else {
      CombosAre(sc, comb, base, g, c, pool, k - 1);
      Walk.RadixTake(c, k - 1);
      assert DimIs(sc, comb, base, PinOf(sc, g, k - 1), c, pool, k - 1);
      assert Radix(c)[k - 1] == Choices(sc, base, g, k - 1);
    }
  }

  lemma JoinsAre(sc: Schema, comb: Dicts, base: Dicts, g: Group, c: Cover, pool: seq<nat>, d: nat, nRows: nat,
          room: Option<nat>)
    requires CoverIs(sc, comb, base, g, c, pool) && d < sc.indexDims
    requires forall k :: 0 <= k < d ==> c.hasEq[k] || c.candN[k] > 0
    ensures Walk.CoverJoins(c, d, nRows, room) <==> Joins(sc, base, g, d, nRows, room)
  {
    hide PinOf, HasCand, ListCount, TooMany, Combos, HasSrc;
    assert DimIs(sc, comb, base, PinOf(sc, g, d), c, pool, d);
    if c.hasEq[d] || c.candN[d] > 0 {
      CombosAre(sc, comb, base, g, c, pool, d + 1);
    }
  }

  // The depth the loop stopped at is the query's.
  lemma DepthAre(sc: Schema, comb: Dicts, base: Dicts, g: Group, c: Cover, pool: seq<nat>, k: nat, nRows: nat,
          room: Option<nat>)
    requires CoverIs(sc, comb, base, g, c, pool) && Walk.DepthIs(sc, c, k, nRows, room)
    ensures PrefixDepth(sc, base, g, nRows, room) == k
  {
    hide CoverIs, Joins, TooMany, PrefixDepth, Combos, Choices;
    forall d | 0 <= d < k ensures c.hasEq[d] || c.candN[d] > 0 {
      assert Walk.CoverJoins(c, d, nRows, room);
    }
    forall d | 0 <= d < k ensures Joins(sc, base, g, d, nRows, room) {
      JoinsAre(sc, comb, base, g, c, pool, d, nRows, room);
    }
    if k < sc.indexDims {
      JoinsAre(sc, comb, base, g, c, pool, k, nRows, room);
    }
    DepthUnique(sc, base, g, nRows, room, k);
  }

  // ---- Slots ----

  lemma {:induction false} ImageSize(a: set<seq<nat>>, b: set<seq<nat>>, f: seq<nat> -> seq<nat>)
    requires b == set w | w in a :: f(w)
    requires forall u, w :: u in a && w in a && f(u) == f(w) ==> u == w
    ensures |a| == |b|
  {
    if a == {} {
    } else {
      var x :| x in a;
      ImageSize(a - {x}, b - {f(x)}, f);
    }
  }

  // Candidate positions to list entries, dimension by dimension.
  ghost predicate SrcsOK(sc: Schema, comb: Dicts, base: Dicts, g: Group, c: Cover, pool: seq<nat>, srcs: seq<seq<nat>>)
    requires |sc.dims| == |comb| == |base|
  {
    && |srcs| <= |sc.dims| && |srcs| <= |c.candN|
    && forall d: nat :: d < |srcs| ==> SrcOK(sc, comb, base, PinOf(sc, g, d), c, pool, d, srcs[d])
  }

  lemma {:induction false} PickSrcs(sc: Schema, comb: Dicts, base: Dicts, g: Group, c: Cover, pool: seq<nat>, k: nat)
    returns (srcs: seq<seq<nat>>)
    requires CoverIs(sc, comb, base, g, c, pool) && k <= sc.indexDims
    requires forall d :: 0 <= d < k ==> c.hasEq[d] || c.candN[d] > 0
    ensures |srcs| == k && SrcsOK(sc, comb, base, g, c, pool, srcs)
  {
    hide SrcOK, PinOf, HasCand, ListCount;
    if k == 0 {
      srcs := [];
    } else {
      srcs := PickSrcs(sc, comb, base, g, c, pool, k - 1);
      assert DimIs(sc, comb, base, PinOf(sc, g, k - 1), c, pool, k - 1);
      var src :| SrcOK(sc, comb, base, PinOf(sc, g, k - 1), c, pool, k - 1, src);
      srcs := srcs + [src];
    }
  }

  function EntriesAt(srcs: seq<seq<nat>>, w: seq<nat>): (u: seq<nat>)
    ensures |u| == |srcs|
  {
    seq(|srcs|, d requires 0 <= d < |srcs| => if d < |w| && w[d] < |srcs[d]| then srcs[d][w[d]] else 0)
  }

  lemma EntriesInjective(srcs: seq<seq<nat>>, radix: seq<nat>, u: seq<nat>, w: seq<nat>)
    requires |srcs| == |radix| && forall d :: 0 <= d < |srcs| ==> |srcs[d]| == radix[d] && Distinct(srcs[d])
    requires Odometer.InBox(radix, u) && Odometer.InBox(radix, w) && EntriesAt(srcs, u) == EntriesAt(srcs, w)
    ensures u == w
  {
    forall d | 0 <= d < |u| ensures u[d] == w[d] {
      assert EntriesAt(srcs, u)[d] == srcs[d][u[d]] && EntriesAt(srcs, w)[d] == srcs[d][w[d]];
      assert Distinct(srcs[d]);
    }
  }

  // A reading some row carries spells that row, entry by entry.
  lemma ReadingSpells(sc: Schema, m: ViewV, g: Group, c: Cover, pool: seq<nat>, srcs: seq<seq<nat>>, w: seq<nat>)
    requires ViewOK(sc, m) && |sc.dims| == |Upsert.CombOf(m)| == |m.base.dicts|
               && SrcsOK(sc, Upsert.CombOf(m), m.base.dicts, g, c, pool, srcs)
    requires Odometer.InBox(Radix(c)[..|srcs|], w) && RowHas(m.base.rows, PrefixAt(c, pool, w))
    ensures NamesRow(sc, m, g, EntriesAt(srcs, w))
  {
    hide ViewOK, PickHolds, PinOf, CandAt, Upsert.CombOf, Decode, InRange;
    var comb := Upsert.CombOf(m);
    var r: nat :| r < |m.base.rows| && HasPrefix(m.base.rows[r].ids, PrefixAt(c, pool, w));
    var (ids, u) := (m.base.rows[r].ids, EntriesAt(srcs, w));
    RowDecodes(sc, m, r);
    forall d: nat | d < |u|
      ensures d < |sc.dims| && d < |Decode(comb, ids)| && PickHolds(sc, PinOf(sc, g, d), u[d], d, Decode(comb, ids)[d])
    {
      assert SrcOK(sc, comb, m.base.dicts, PinOf(sc, g, d), c, pool, d, srcs[d]);
      assert ids[d] == ids[..|w|][d] == PrefixAt(c, pool, w)[d] == CandAt(c, pool, d, w[d]);
      assert w[d] < Radix(c)[..|srcs|][d] == |srcs[d]|;
    }
    assert Spells(sc, g, u, Decode(comb, ids));
  }

  lemma RowDecodes(sc: Schema, m: ViewV, r: nat)
    requires ViewOK(sc, m) && r < |m.base.rows|
    ensures var (comb, ids) := (Upsert.CombOf(m), m.base.rows[r].ids);
            |ids| == |Decode(comb, ids)| == |sc.dims| == |comb| == |m.base.dicts|
            && forall d :: 0 <= d < |ids| ==>
                 ids[d] < |m.base.dicts[d]| && ids[d] < |comb[d]| && DictOK(comb[d], sc.dims[d].isInt)
                                              && Decode(comb, ids)[d] == comb[d][ids[d]] == m.base.dicts[d][ids[d]]
  {
    CombExtends(m.base.dicts, m.extras);
    var (comb, ids) := (Upsert.CombOf(m), m.base.rows[r].ids);
    forall d | 0 <= d < |ids| ensures ids[d] < |comb[d]| && comb[d][ids[d]] == m.base.dicts[d][ids[d]] {
      assert m.base.dicts[d] <= comb[d];
    }
  }

  // And whatever spells a row is the entry list of a reading it carries.
  lemma SpellsReading(sc: Schema, m: ViewV, g: Group, c: Cover, pool: seq<nat>, srcs: seq<seq<nat>>, u: seq<nat>)
    returns (w: seq<nat>)
    requires ViewOK(sc, m) && |sc.dims| == |Upsert.CombOf(m)| == |m.base.dicts|
               && SrcsOK(sc, Upsert.CombOf(m), m.base.dicts, g, c, pool, srcs)
    requires |u| == |srcs| && NamesRow(sc, m, g, u)
    ensures Odometer.InBox(Radix(c)[..|srcs|], w) && RowHas(m.base.rows, PrefixAt(c, pool, w))
              && EntriesAt(srcs, w) == u
  {
    hide ViewOK, PinOf, CandAt, Upsert.CombOf, Decode, InRange, DictOK;
    var (comb, base) := (Upsert.CombOf(m), m.base.dicts);
    var r: nat :| r < |m.base.rows| && Spells(sc, g, u, Decode(comb, m.base.rows[r].ids));
    var ids := m.base.rows[r].ids;
    RowDecodes(sc, m, r);
    w := seq(|srcs|, d requires 0 <= d < |srcs| => if u[d] in srcs[d] then (var x: nat :| x < |srcs[d]|
      && srcs[d][x] == u[d]; x) else 0);
    forall d | 0 <= d < |srcs|
      ensures w[d] < |srcs[d]| == Radix(c)[d] && srcs[d][w[d]] == u[d] && CandAt(c, pool, d, w[d]) == ids[d]
    {
      SpellsDim(sc, comb, base, PinOf(sc, g, d), c, pool, d, srcs[d], u[d], ids[d], w[d]);
    }
    assert PrefixAt(c, pool, w) == ids[..|w|];
    assert HasPrefix(ids, PrefixAt(c, pool, w));
  }

  lemma SpellsDim(sc: Schema, comb: Dicts, base: Dicts, pin: Pin, c: Cover, pool: seq<nat>, d: nat, src: seq<nat>,
          i: nat, id: nat, x: nat)
    requires d < |sc.dims| == |comb| == |base| && d < |c.candN| && SrcOK(sc, comb, base, pin, c, pool, d, src)
    requires id < |base[d]| && id < |comb[d]| && comb[d][id] == base[d][id] && DictOK(comb[d], sc.dims[d].isInt)
    requires PickHolds(sc, pin, i, d, comb[d][id])
    requires i in src ==> x < |src| && src[x] == i
    ensures x < |src| == Radix(c)[d] && src[x] == i && CandAt(c, pool, d, x) == id
  {
    hide ValueOf, CandAt, Radix;
    assert base[d][id] in base[d];
    assert i in src;
  }

  // The intervals emitted are as many as the query's picks that name a row.
  lemma CountedAre(sc: Schema, m: ViewV, g: Group, c: Cover, pool: seq<nat>, k: nat, used: nat)
    requires ViewOK(sc, m) && CoverIs(sc, Upsert.CombOf(m), m.base.dicts, g, c, pool) && k <= sc.indexDims
    requires forall d :: 0 <= d < k ==> c.hasEq[d] || c.candN[d] > 0
    requires Counted(m.base.rows, c, pool, k, used)
    ensures exists picks :: Spelled(sc, m, g, k, picks) && |picks| == used
  {
    hide ViewOK, CoverIs, Upsert.CombOf, NamesRow, RowHas, PrefixAt, SrcOK, Radix, Odometer.Rank, Odometer.Prod,
      Odometer.InBox;
    var (comb, base) := (Upsert.CombOf(m), m.base.dicts);
    CoverWidths(sc, comb, base, g, c, pool);
    var srcs := PickSrcs(sc, comb, base, g, c, pool, k);
    var radix := Radix(c)[..k];
    var hits :| Carried(m.base.rows, c, pool, radix, Odometer.Prod(radix), hits) && |hits| == used;
    var picks := set w | w in hits :: EntriesAt(srcs, w);
    SrcSizes(sc, comb, base, g, c, pool, srcs);
    forall u, w | u in hits && w in hits && EntriesAt(srcs, u) == EntriesAt(srcs, w) ensures u == w {
      EntriesInjective(srcs, radix, u, w);
    }
    ImageSize(hits, picks, w => EntriesAt(srcs, w));
    forall u ensures u in picks <==> |u| == k && NamesRow(sc, m, g, u) {
      if u in picks {
        var w :| w in hits && EntriesAt(srcs, w) == u;
        ReadingSpells(sc, m, g, c, pool, srcs, w);
      }
      if |u| == k && NamesRow(sc, m, g, u) {
        var w := SpellsReading(sc, m, g, c, pool, srcs, u);
        Odometer.RankBound(radix, w);
        assert w in hits;
      }
    }
    assert Spelled(sc, m, g, k, picks);
  }

  lemma CoverWidths(sc: Schema, comb: Dicts, base: Dicts, g: Group, c: Cover, pool: seq<nat>)
    requires CoverIs(sc, comb, base, g, c, pool)
    ensures sc.indexDims <= |sc.dims| == |comb| == |base|
    ensures |Radix(c)| == |c.hasEq| == |c.eqID| == |c.candN| == |c.candOff| == sc.indexDims
  {
  }

  lemma SrcSizes(sc: Schema, comb: Dicts, base: Dicts, g: Group, c: Cover, pool: seq<nat>, srcs: seq<seq<nat>>)
    requires |sc.dims| == |comb| == |base| && SrcsOK(sc, comb, base, g, c, pool, srcs)
    ensures |srcs| <= |Radix(c)| && forall d :: 0 <= d < |srcs| ==>
              |srcs[d]| == Radix(c)[..|srcs|][d] && Distinct(srcs[d])
  {
    hide PickHolds, PinOf, CandAt;
    forall d | 0 <= d < |srcs| ensures |srcs[d]| == Radix(c)[..|srcs|][d] && Distinct(srcs[d]) {
      assert SrcOK(sc, comb, base, PinOf(sc, g, d), c, pool, d, srcs[d]);
    }
  }
}
