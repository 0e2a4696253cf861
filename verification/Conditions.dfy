// Resolving query conditions to dictionary ids, and what the resolved form means.
module Conditions {
  import opened Decimal
  import opened Table
  import opened Oracle
  import opened Scratch

  // The id of a value in one combined dictionary.
  ghost predicate HasId(dict: seq<Value>, v: Value, id: nat) {
    id < |dict| && dict[id] == v
  }

  // What a condition turns into. Absent: no row anywhere can satisfy it.
  datatype Verdict = Invalid | Absent | Usable

  // The verdict on one condition against the combined dictionaries.
  ghost function Judge(sc: Schema, comb: Dicts, c: Cond): Verdict
    requires |comb| == |sc.dims|
  {
    var d := sc.DimIndex(c.dim);
    if d < 0 then Invalid
    else if c.range.Some? then
      (if c.value != [] || |c.ins| > 0 || !sc.dims[d].isInt then Invalid else Usable)
    else if |c.ins| > 0 then
      (if c.value != [] || (exists i :: 0 <= i < |c.ins| && ValueOf(sc, d, c.ins[i]).None?) then Invalid
       else if exists i ::
         0 <= i < |c.ins| && ValueOf(sc, d, c.ins[i]).Some? && ValueOf(sc, d, c.ins[i]).value in comb[d] then Usable
       else Absent)
    else if ValueOf(sc, d, c.value).None? then Invalid
    else if ValueOf(sc, d, c.value).value in comb[d] then Usable
    else Absent
  }

  // The first condition that is not usable decides: planning stops there, so conditions
  // after an absent value are never validated.
  ghost function JudgeGroup(sc: Schema, comb: Dicts, g: Group): Verdict
    requires |comb| == |sc.dims|
  {
    if |g| == 0 then Usable
    else if JudgeGroup(sc, comb, g[..|g| - 1]) != Usable then JudgeGroup(sc, comb, g[..|g| - 1])
    else Judge(sc, comb, g[|g| - 1])
  }

  // A well-formed condition, independently of what the table holds.
  predicate WellFormed(sc: Schema, c: Cond) {
    var d := sc.DimIndex(c.dim);
    && d >= 0
    && (c.range.Some? ==> c.value == [] && |c.ins| == 0 && sc.dims[d].isInt)
    && (c.range.None? && |c.ins| > 0 ==> c.value == [] && forall i :: 0 <= i < |c.ins| ==>
         ValueOf(sc, d, c.ins[i]).Some?)
    && (c.range.None? && |c.ins| == 0 ==> ValueOf(sc, d, c.value).Some?)
  }

  lemma InvalidIsMalformed(sc: Schema, comb: Dicts, c: Cond)
    requires |comb| == |sc.dims|
    ensures Judge(sc, comb, c).Invalid? <==> !WellFormed(sc, c)
  {
  }

  // An absent value matches no stored row.
  lemma AbsentMatchesNothing(sc: Schema, comb: Dicts, c: Cond, ids: seq<nat>)
    requires |comb| == |sc.dims| && InRange(comb, ids) && Judge(sc, comb, c).Absent?
    ensures !MatchesCond(sc, Decode(comb, ids), c)
  {
    var d := sc.DimIndex(c.dim);
    assert Decode(comb, ids)[d] == comb[d][ids[d]];
  }

  lemma {:induction false} DeadMatchesNothing(sc: Schema, comb: Dicts, g: Group, ids: seq<nat>)
    requires |comb| == |sc.dims| && InRange(comb, ids) && JudgeGroup(sc, comb, g).Absent?
    ensures !Matches(sc, Decode(comb, ids), g)
  {
    var n := |g| - 1;
    if JudgeGroup(sc, comb, g[..n]) != Usable {
      DeadMatchesNothing(sc, comb, g[..n], ids);
      var i :| 0 <= i < n && !MatchesCond(sc, Decode(comb, ids), g[..n][i]);
      assert !MatchesCond(sc, Decode(comb, ids), g[i]);
    } else {
      AbsentMatchesNothing(sc, comb, g[n], ids);
    }
  }

  // Equality: the row carries the id.
  lemma EqMeaning(sc: Schema, comb: Dicts, c: Cond, d: nat, id: nat, ids: seq<nat>)
    requires DictsOK(sc, comb) && InRange(comb, ids) && sc.DimIndex(c.dim) == d
    requires c.range.None? && |c.ins| == 0 && ValueOf(sc, d, c.value).Some?
               && HasId(comb[d], ValueOf(sc, d, c.value).value, id)
    ensures MatchesCond(sc, Decode(comb, ids), c) <==> ids[d] == id
  {
    assert Decode(comb, ids)[d] == comb[d][ids[d]];
    assert DictOK(comb[d], sc.dims[d].isInt);
  }

  // The window holds exactly the ids of the listed values that exist.
  ghost predicate IdsOf(sc: Schema, comb: Dicts, d: nat, ins: seq<Text>, n: nat, win: seq<nat>)
    requires d < |sc.dims| == |comb| && n <= |ins|
  {
    && (forall k :: 0 <= k < |win| ==>
         exists i :: 0 <= i < n && ValueOf(sc, d, ins[i]).Some? && HasId(comb[d], ValueOf(sc, d, ins[i]).value, win[k]))
    && (forall i, id ::
         0 <= i < n && ValueOf(sc, d, ins[i]).Some? && HasId(comb[d], ValueOf(sc, d, ins[i]).value, id) ==> id in win)
  }

  // Listed values a dictionary holds, counted with repetition.
  function ListCount(sc: Schema, dict: seq<Value>, d: nat, ins: seq<Text>, n: nat): nat
    requires d < |sc.dims| && n <= |ins|
  {
    if n == 0 then 0
    else
      var x := ValueOf(sc, d, ins[n - 1]);
      ListCount(sc, dict, d, ins, n - 1) + (if x.Some? && x.value in dict then 1 else 0)
  }

  function CountBelow(win: seq<nat>, limit: nat): nat {
    if |win| == 0 then 0 else CountBelow(win[..|win| - 1], limit) + (if win[|win| - 1] < limit then 1 else 0)
  }

  // Of every initial part of the dictionary the window holds each listed value as often
  // as it is listed.
  ghost predicate WinCounts(sc: Schema, comb: Dicts, d: nat, ins: seq<Text>, n: nat, win: seq<nat>)
    requires d < |sc.dims| == |comb| && n <= |ins|
  {
    forall limit: nat :: limit <= |comb[d]| ==> CountBelow(win, limit) == ListCount(sc, comb[d][..limit], d, ins, n)
  }

  // src names, for every id of the window, the list entry it comes from: every listed value
  // the dictionary knows, once.
  ghost predicate SourcedBy(sc: Schema, comb: Dicts, d: nat, ins: seq<Text>, n: nat, win: seq<nat>, src: seq<nat>)
    requires d < |sc.dims| == |comb| && n <= |ins|
  {
    && |src| == |win| && Distinct(src)
    && (forall x :: 0 <= x < |src| ==> src[x] < n && ValueOf(sc, d, ins[src[x]]).Some?
                                       && HasId(comb[d], ValueOf(sc, d, ins[src[x]]).value, win[x]))
    && (forall i: nat :: i < n && ValueOf(sc, d, ins[i]).Some? && ValueOf(sc, d, ins[i]).value in comb[d] ==> i in src)
  }

  ghost predicate Sourced(sc: Schema, comb: Dicts, d: nat, ins: seq<Text>, n: nat, win: seq<nat>)
    requires d < |sc.dims| == |comb| && n <= |ins|
  {
    exists src :: SourcedBy(sc, comb, d, ins, n, win, src)
  }

  lemma CountAppend(win: seq<nat>, id: nat, limit: nat)
    ensures CountBelow(win + [id], limit) == CountBelow(win, limit) + (if id < limit then 1 else 0)
  {
    assert (win + [id])[..|win|] == win;
  }

  lemma {:induction false} CountRemove(a: seq<nat>, i: nat, limit: nat)
    requires i < |a|
    ensures CountBelow(a, limit) == CountBelow(a[..i] + a[i + 1..], limit) + (if a[i] < limit then 1 else 0)
  {
    var n := |a| - 1;
    if i == n {
      assert a[..i] + a[i + 1..] == a[..n];
    } else {
      var rest := a[..i] + a[i + 1..];
      assert rest[..n - 1] == a[..n][..i] + a[..n][i + 1..];
      assert rest[n - 1] == a[n];
      CountRemove(a[..n], i, limit);
    }
  }

  lemma RemoveOne(b: seq<nat>, i: nat)
    requires i < |b|
    ensures multiset(b) == multiset(b[..i] + b[i + 1..]) + multiset{b[i]}
  {
    assert b == b[..i] + [b[i]] + b[i + 1..];
  }

  lemma Cancel(a: multiset<nat>, b: multiset<nat>, x: nat)
    requires a + multiset{x} == b + multiset{x}
    ensures a == b
  {
    assert a == (a + multiset{x}) - multiset{x};
    assert b == (b + multiset{x}) - multiset{x};
  }

  // The count does not depend on order.
  lemma {:induction false} CountPermuted(a: seq<nat>, b: seq<nat>, limit: nat)
    requires multiset(a) == multiset(b)
    ensures CountBelow(a, limit) == CountBelow(b, limit)
    decreases |a|
  {
    hide CountBelow;
    if |a| == 0 {
      assert |multiset(b)| == |b|;
      assert b == a;
    } else {
      var n := |a| - 1;
      RemoveOne(a, n);
      assert a[..n] + a[n + 1..] == a[..n];
      assert a[n] in multiset(b);
      var i :| 0 <= i < |b| && b[i] == a[n];
      RemoveOne(b, i);
      CountRemove(a, n, limit);
      CountRemove(b, i, limit);
      Cancel(multiset(a[..n]), multiset(b[..i] + b[i + 1..]), a[n]);
      CountPermuted(a[..n], b[..i] + b[i + 1..], limit);
    }
  }

  // In an ascending window the ids below a limit are a prefix, of that length.
  lemma {:induction false} CountPrefix(win: seq<nat>, limit: nat, n: nat)
    requires n <= |win| && forall x :: 0 <= x < |win| ==> (win[x] < limit <==> x < n)
    ensures CountBelow(win, limit) == n
  {
    if |win| == 0 {
    } else if n == |win| {
      CountPrefix(win[..|win| - 1], limit, n - 1);
    } else {
      CountPrefix(win[..|win| - 1], limit, n);
    }
  }

  lemma InMeaning(sc: Schema, comb: Dicts, c: Cond, d: nat, win: seq<nat>, ids: seq<nat>)
    requires DictsOK(sc, comb) && InRange(comb, ids) && sc.DimIndex(c.dim) == d
    requires c.range.None? && |c.ins| > 0 && IdsOf(sc, comb, d, c.ins, |c.ins|, win)
    ensures MatchesCond(sc, Decode(comb, ids), c) <==> ids[d] in win
  {
    assert Decode(comb, ids)[d] == comb[d][ids[d]];
    assert DictOK(comb[d], sc.dims[d].isInt);
    if MatchesCond(sc, Decode(comb, ids), c) {
      var i :| 0 <= i < |c.ins| && ValueOf(sc, d, c.ins[i]) == Some(comb[d][ids[d]]);
      assert HasId(comb[d], ValueOf(sc, d, c.ins[i]).value, ids[d]);
    }
    if ids[d] in win {
      var k :| 0 <= k < |win| && win[k] == ids[d];
      var i :| 0 <= i < |c.ins| && ValueOf(sc, d, c.ins[i]).Some?
        && HasId(comb[d], ValueOf(sc, d, c.ins[i]).value, win[k]);
    }
  }

  lemma RangeMeaning(sc: Schema, comb: Dicts, c: Cond, d: nat, ids: seq<nat>)
    requires DictsOK(sc, comb) && InRange(comb, ids) && sc.DimIndex(c.dim) == d && c.range.Some? && sc.dims[d].isInt
    ensures comb[d][ids[d]].Num?
    ensures MatchesCond(sc, Decode(comb, ids), c) <==> c.range.value.min <= comb[d][ids[d]].n <= c.range.value.max
  {
    assert Decode(comb, ids)[d] == comb[d][ids[d]];
    assert DictOK(comb[d], sc.dims[d].isInt);
  }

  // ---- A plan's conditions, read back from the pools ----

  function WindowIds(w: InWindow, pool: seq<nat>): seq<nat> {
    if w.off + w.n <= |pool| then pool[w.off..w.off + w.n] else []
  }

  function NumAt(comb: Dicts, d: nat, id: nat): int {
    match ValueAt(comb, d, id)
    case Num(n) => n
    case Str(_) => 0
  }

  predicate EqAt(pl: PoolsV, i: nat, ids: seq<nat>) {
    i < |pl.condDims| && i < |pl.condIDs| && pl.condDims[i] < |ids| && ids[pl.condDims[i]] == pl.condIDs[i]
  }

  predicate InAt(pl: PoolsV, i: nat, ids: seq<nat>) {
    i < |pl.inWins| && pl.inWins[i].dim < |ids| && ids[pl.inWins[i].dim] in WindowIds(pl.inWins[i], pl.inPool)
  }

  predicate RngAt(comb: Dicts, pl: PoolsV, i: nat, ids: seq<nat>) {
    i < |pl.rWins| && pl.rWins[i].dim < |ids|
    && pl.rWins[i].min <= NumAt(comb, pl.rWins[i].dim, ids[pl.rWins[i].dim]) <= pl.rWins[i].max
  }

  predicate EqHold(p: GroupPlan, pl: PoolsV, ids: seq<nat>) {
    forall i :: p.condOff <= i < p.condOff + p.condN ==> EqAt(pl, i, ids)
  }

  predicate InHold(p: GroupPlan, pl: PoolsV, ids: seq<nat>) {
    forall i :: p.insOff <= i < p.insOff + p.insN ==> InAt(pl, i, ids)
  }

  predicate RngHold(comb: Dicts, p: GroupPlan, pl: PoolsV, ids: seq<nat>) {
    forall i :: p.rngOff <= i < p.rngOff + p.rngN ==> RngAt(comb, pl, i, ids)
  }

  predicate CondsHold(comb: Dicts, p: GroupPlan, pl: PoolsV, ids: seq<nat>) {
    EqHold(p, pl, ids) && InHold(p, pl, ids) && RngHold(comb, p, pl, ids)
  }

  // The pools only ever grow.
  ghost predicate Grown(a: PoolsV, b: PoolsV) {
    && a.condDims <= b.condDims && a.condIDs <= b.condIDs && a.inWins <= b.inWins && a.inPool <= b.inPool
         && a.rWins <= b.rWins
  }

  // The windows stay within the pools.
  ghost predicate PoolsOK(pl: PoolsV) {
    && |pl.condDims| == |pl.condIDs|
    && forall i :: 0 <= i < |pl.inWins| ==> pl.inWins[i].off + pl.inWins[i].n <= |pl.inPool|
  }

  ghost predicate Inside(p: GroupPlan, pl: PoolsV) {
    && p.condOff + p.condN <= |pl.condDims| == |pl.condIDs|
    && p.insOff + p.insN <= |pl.inWins|
    && p.rngOff + p.rngN <= |pl.rWins|
  }

  // Later groups' appends do not disturb a finished plan.
  lemma CondsStable(comb: Dicts, p: GroupPlan, a: PoolsV, b: PoolsV, ids: seq<nat>)
    requires Grown(a, b) && PoolsOK(a) && PoolsOK(b) && Inside(p, a)
    ensures Inside(p, b)
    ensures CondsHold(comb, p, b, ids) <==> CondsHold(comb, p, a, ids)
  {
    forall i | p.condOff <= i < p.condOff + p.condN ensures EqAt(a, i, ids) <==> EqAt(b, i, ids) {
    }
    forall i | p.insOff <= i < p.insOff + p.insN ensures InAt(a, i, ids) <==> InAt(b, i, ids) {
      assert a.inWins[i] == b.inWins[i];
      var w := a.inWins[i];
      assert a.inPool[w.off..w.off + w.n] == b.inPool[w.off..w.off + w.n];
    }
    forall i | p.rngOff <= i < p.rngOff + p.rngN ensures RngAt(comb, a, i, ids) <==> RngAt(comb, b, i, ids) {
      assert a.rWins[i] == b.rWins[i];
    }
  }
}
