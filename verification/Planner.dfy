// plan(): the resolved conditions of one group and what they mean for a row.
module Planner {
  import opened Table
  import opened Oracle
  import opened Scratch
  import opened Conditions
  import opened Resolve

  // ---- The condition segment of one group ----

  // Where a group's segments start in the pools.
  datatype Start = Start(cond: nat, ins: nat, rng: nat)

  predicate StartsIn(st: Start, pl: PoolsV) {
    st.cond <= |pl.condDims| && st.ins <= |pl.inWins| && st.rng <= |pl.rWins|
  }

  // The plan whose segments run from st to the end of the pools.
  function Segment(st: Start, pl: PoolsV): GroupPlan
    requires StartsIn(st, pl)
  {
    BLANK.(condOff := st.cond, condN := |pl.condDims| - st.cond,
           insOff := st.ins, insN := |pl.inWins| - st.ins,
           rngOff := st.rng, rngN := |pl.rWins| - st.rng)
  }

  // What was appended between a and b holds of ids.
  ghost predicate NewHold(comb: Dicts, a: PoolsV, b: PoolsV, ids: seq<nat>) {
    && (forall i :: |a.condDims| <= i < |b.condDims| ==> EqAt(b, i, ids))
    && (forall i :: |a.inWins| <= i < |b.inWins| ==> InAt(b, i, ids))
    && (forall i :: |a.rWins| <= i < |b.rWins| ==> RngAt(comb, b, i, ids))
  }

  lemma SegmentGrows(comb: Dicts, st: Start, a: PoolsV, b: PoolsV, ids: seq<nat>)
    requires Grown(a, b) && PoolsOK(a) && PoolsOK(b) && StartsIn(st, a)
    ensures StartsIn(st, b)
    ensures CondsHold(comb, Segment(st, b), b, ids) <==>
              CondsHold(comb, Segment(st, a), a, ids) && NewHold(comb, a, b, ids)
  {
    hide EqAt, InAt, RngAt, CondsHold;
    var (p, q) := (Segment(st, a), Segment(st, b));
    CondsStable(comb, p, a, b, ids);
    assert CondsHold(comb, p, b, ids) == (EqHold(p, b, ids) && InHold(p, b, ids)
      && RngHold(comb, p, b, ids)) by { CondsParts(comb, p, b, ids); }
    CondsParts(comb, q, b, ids);
  }

  lemma CondsParts(comb: Dicts, p: GroupPlan, pl: PoolsV, ids: seq<nat>)
    ensures CondsHold(comb, p, pl, ids) <==> EqHold(p, pl, ids) && InHold(p, pl, ids) && RngHold(comb, p, pl, ids)
  {
  }

  ghost predicate EqOK(comb: Dicts, pl: PoolsV, i: nat) {
    i < |pl.condDims| == |pl.condIDs| && pl.condDims[i] < |comb| && pl.condIDs[i] < |comb[pl.condDims[i]]|
  }

  ghost predicate WinOK(comb: Dicts, pl: PoolsV, i: nat) {
    && i < |pl.inWins| && pl.inWins[i].dim < |comb|
    && pl.inWins[i].n > 0 && pl.inWins[i].off + pl.inWins[i].n <= |pl.inPool|
    && AscendingIds(WindowIds(pl.inWins[i], pl.inPool))
    && forall x :: x in WindowIds(pl.inWins[i], pl.inPool) ==> x < |comb[pl.inWins[i].dim]|
  }

  // A range stands on an integer dimension.
  ghost predicate RngOK(comb: Dicts, pl: PoolsV, i: nat) {
    && i < |pl.rWins| && pl.rWins[i].dim < |comb|
    && forall k :: 0 <= k < |comb[pl.rWins[i].dim]| ==> comb[pl.rWins[i].dim][k].Num?
  }

  ghost predicate PoolsWellFormed(comb: Dicts, pl: PoolsV) {
    && PoolsOK(pl)
    && (forall i :: 0 <= i < |pl.rWins| ==> RngOK(comb, pl, i))
    && (forall i :: 0 <= i < |pl.condDims| ==> EqOK(comb, pl, i))
    && (forall i :: 0 <= i < |pl.inWins| ==> WinOK(comb, pl, i))
  }

  // Appending one condition keeps the pools well formed and says exactly that condition.
  lemma PushedMeans(sc: Schema, comb: Dicts, c: Cond, a: PoolsV, b: PoolsV, ids: seq<nat>)
    requires DictsOK(sc, comb) && InRange(comb, ids) && PoolsOK(a) && Pushed(sc, comb, c, a, b)
    ensures NewHold(comb, a, b, ids) <==> MatchesCond(sc, Decode(comb, ids), c)
  {
    hide MatchesCond, ValueOf, IdsOf, AscendingIds;
    var d := sc.DimIndex(c.dim);
    if c.range.Some? {
      RangeMeaning(sc, comb, c, d, ids);
      assert b.rWins[|a.rWins|] == RangeWindow(d, c.range.value.min, c.range.value.max);
      assert NewHold(comb, a, b, ids) <==> RngAt(comb, b, |a.rWins|, ids);
    } else if |c.ins| > 0 {
      InMeaning(sc, comb, c, d, b.inPool[|a.inPool|..], ids);
      var w := b.inWins[|a.inWins|];
      assert WindowIds(w, b.inPool) == b.inPool[|a.inPool|..];
      assert NewHold(comb, a, b, ids) <==> InAt(b, |a.inWins|, ids);
    } else {
      EqMeaning(sc, comb, c, d, b.condIDs[|a.condIDs|], ids);
      assert b.condDims[|a.condDims|] == d;
      assert NewHold(comb, a, b, ids) <==> EqAt(b, |a.condDims|, ids);
    }
  }

  lemma OldEntries(comb: Dicts, a: PoolsV, b: PoolsV)
    requires PoolsWellFormed(comb, a) && Grown(a, b) && |b.condDims| == |b.condIDs|
    ensures forall i :: 0 <= i < |a.condDims| ==> EqOK(comb, b, i)
    ensures forall i :: 0 <= i < |a.inWins| ==> WinOK(comb, b, i)
    ensures forall i :: 0 <= i < |a.rWins| ==> RngOK(comb, b, i)
  {
    forall i | 0 <= i < |a.rWins| ensures RngOK(comb, b, i) {
      assert RngOK(comb, a, i);
      assert b.rWins[i] == a.rWins[i];
    }
    forall i | 0 <= i < |a.condDims| ensures EqOK(comb, b, i) {
      assert EqOK(comb, a, i);
    }
    forall i | 0 <= i < |a.inWins| ensures WinOK(comb, b, i) {
      assert WinOK(comb, a, i);
      assert WindowIds(b.inWins[i], b.inPool) == WindowIds(a.inWins[i], a.inPool);
    }
  }

  lemma PushedWellFormed(sc: Schema, comb: Dicts, c: Cond, a: PoolsV, b: PoolsV)
    requires DictsOK(sc, comb) && PoolsWellFormed(comb, a) && Pushed(sc, comb, c, a, b)
    ensures PoolsWellFormed(comb, b) && Grown(a, b)
  {
    hide ValueOf, AscendingIds, EqOK, WinOK, RngOK;
    OldEntries(comb, a, b);
    if c.range.Some? {
      NewRange(sc, comb, c, a, b);
    }
    if c.range.None? && |c.ins| > 0 {
      NewWindow(sc, comb, c, a, b);
    } else if c.range.None? {
      NewEq(sc, comb, c, a, b);
    }
  }

  lemma NewRange(sc: Schema, comb: Dicts, c: Cond, a: PoolsV, b: PoolsV)
    requires DictsOK(sc, comb) && Pushed(sc, comb, c, a, b) && c.range.Some?
    ensures RngOK(comb, b, |a.rWins|)
  {
    assert DictOK(comb[sc.DimIndex(c.dim)], true);
  }

  lemma NewEq(sc: Schema, comb: Dicts, c: Cond, a: PoolsV, b: PoolsV)
    requires |comb| == |sc.dims| && PoolsOK(a) && Pushed(sc, comb, c, a, b) && c.range.None? && |c.ins| == 0
    ensures EqOK(comb, b, |a.condDims|)
  {
  }

  lemma NewWindow(sc: Schema, comb: Dicts, c: Cond, a: PoolsV, b: PoolsV)
    requires |comb| == |sc.dims| && Pushed(sc, comb, c, a, b) && c.range.None? && |c.ins| > 0
    ensures WinOK(comb, b, |a.inWins|)
  {
    hide ValueOf;
    var d := sc.DimIndex(c.dim);
    var win := b.inPool[|a.inPool|..];
    assert WindowIds(b.inWins[|a.inWins|], b.inPool) == win;
    forall x | x in win ensures x < |comb[d]| {
      var k :| 0 <= k < |win| && win[k] == x;
      var i :| 0 <= i < |c.ins| && ValueOf(sc, d, c.ins[i]).Some?
        && HasId(comb[d], ValueOf(sc, d, c.ins[i]).value, win[k]);
    }
  }

  // The segment means exactly the conditions resolved so far.
  ghost predicate Means(sc: Schema, comb: Dicts, g: Group, st: Start, pl: PoolsV) {
    && PoolsWellFormed(comb, pl) && StartsIn(st, pl)
    && forall ids :: InRange(comb, ids) ==>
         (Matches(sc, Decode(comb, ids), g) <==> CondsHold(comb, Segment(st, pl), pl, ids))
  }

  lemma MeansStart(sc: Schema, comb: Dicts, pl: PoolsV)
    requires PoolsWellFormed(comb, pl)
    ensures Means(sc, comb, [], Start(|pl.condDims|, |pl.inWins|, |pl.rWins|), pl)
  {
  }

  lemma MeansStep(sc: Schema, comb: Dicts, g: Group, c: Cond, st: Start, a: PoolsV, b: PoolsV)
    requires DictsOK(sc, comb) && Means(sc, comb, g, st, a) && Pushed(sc, comb, c, a, b)
    ensures Means(sc, comb, g + [c], st, b) && Grown(a, b)
  {
    hide Pushed, MatchesCond, CondsHold, NewHold, EqOK, WinOK, Decode;
    PushedWellFormed(sc, comb, c, a, b);
    forall ids | InRange(comb, ids)
      ensures Matches(sc, Decode(comb, ids), g + [c]) <==> CondsHold(comb, Segment(st, b), b, ids)
    {
      PushedMeans(sc, comb, c, a, b, ids);
      SegmentGrows(comb, st, a, b, ids);
      var t := Decode(comb, ids);
      assert Matches(sc, t, g + [c]) <==> Matches(sc, t, g) && MatchesCond(sc, t, c) by { MatchesSnoc(sc, t, g, c); }
    }
  }

  lemma MatchesSnoc(sc: Schema, t: Tuple, g: Group, c: Cond)
    ensures Matches(sc, t, g + [c]) <==> Matches(sc, t, g) && MatchesCond(sc, t, c)
  {
    hide MatchesCond;
    var h := g + [c];
    assert h[|g|] == c;
    assert forall i :: 0 <= i < |g| ==> h[i] == g[i];
  }
}
