// Which malformed queries are refused: planning stops at the first condition no row can
// satisfy, and never looks at those behind it.
module Refusal {
  import opened Decimal
  import opened Table
  import opened Oracle
  import opened Upsert
  import opened Conditions
  import opened PlanAll

  // Condition i is malformed and every earlier one can be satisfied.
  ghost predicate RefusesAt(sc: Schema, comb: Dicts, g: Group, i: int)
    requires |comb| == |sc.dims|
  {
    0 <= i < |g| && !WellFormed(sc, g[i]) && forall k :: 0 <= k < i ==> Judge(sc, comb, g[k]).Usable?
  }

  lemma {:induction false} RefusedIff(sc: Schema, comb: Dicts, g: Group)
    requires |comb| == |sc.dims|
    ensures JudgeGroup(sc, comb, g).Usable? <==> forall k :: 0 <= k < |g| ==> Judge(sc, comb, g[k]).Usable?
    ensures JudgeGroup(sc, comb, g).Invalid? <==> exists i :: RefusesAt(sc, comb, g, i)
  {
    hide Judge, WellFormed;
    if |g| == 0 {
    } else {
      var (n, h) := (|g| - 1, g[..|g| - 1]);
      RefusedIff(sc, comb, h);
      InvalidIsMalformed(sc, comb, g[n]);
      assert forall k :: 0 <= k < n ==> h[k] == g[k];
      if i :| RefusesAt(sc, comb, h, i) {
        assert RefusesAt(sc, comb, g, i);
      }
      if JudgeGroup(sc, comb, h).Usable? && Judge(sc, comb, g[n]).Invalid? {
        assert RefusesAt(sc, comb, g, n);
      }
      if i :| RefusesAt(sc, comb, g, i) {
        if i < n {
          assert RefusesAt(sc, comb, h, i);
        }
      }
    }
  }

  // ---- Refused whatever the table holds ----

  // A malformed condition with nothing but well-formed ranges before it.
  ghost predicate SurelyRefused(sc: Schema, g: Group) {
    exists i :: SureAt(sc, g, i)
  }

  ghost predicate SureAt(sc: Schema, g: Group, i: int) {
    0 <= i < |g| && !WellFormed(sc, g[i]) && forall k :: 0 <= k < i ==> WellFormed(sc, g[k]) && g[k].range.Some?
  }

  // Only a range is usable in a table that holds nothing.
  lemma EmptyTable(sc: Schema, comb: Dicts, c: Cond)
    requires |comb| == |sc.dims| && forall d :: 0 <= d < |comb| ==> comb[d] == []
    ensures Judge(sc, comb, c).Usable? <==> WellFormed(sc, c) && c.range.Some?
  {
  }

  lemma RangesUsable(sc: Schema, comb: Dicts, c: Cond)
    requires |comb| == |sc.dims| && WellFormed(sc, c) && c.range.Some?
    ensures Judge(sc, comb, c).Usable?
  {
  }

  lemma SureIsRefused(sc: Schema, comb: Dicts, g: Group)
    requires |comb| == |sc.dims|
    ensures SurelyRefused(sc, g) ==> JudgeGroup(sc, comb, g).Invalid?
    ensures (forall d :: 0 <= d < |comb| ==> comb[d] == []) && JudgeGroup(sc, comb, g).Invalid? ==> SurelyRefused(sc, g)
  {
    hide Judge, WellFormed, JudgeGroup;
    RefusedIff(sc, comb, g);
    if i :| SureAt(sc, g, i) {
      forall k | 0 <= k < i ensures Judge(sc, comb, g[k]).Usable? {
        RangesUsable(sc, comb, g[k]);
      }
      assert RefusesAt(sc, comb, g, i);
    }
    if forall d :: 0 <= d < |comb| ==> comb[d] == [] {
      forall k | 0 <= k < |g| ensures Judge(sc, comb, g[k]).Usable? <==> WellFormed(sc, g[k]) && g[k].range.Some? {
        EmptyTable(sc, comb, g[k]);
      }
      if i :| RefusesAt(sc, comb, g, i) {
        assert SureAt(sc, g, i);
      }
    }
  }

  function EmptyView(sc: Schema): ViewV { NewView(sc, EmptySnap(sc, EmptyShifts(sc.indexDims))) }

  lemma EmptyViewOK(sc: Schema)
    requires sc.Valid()
    ensures ViewOK(sc, EmptyView(sc)) && |CombOf(EmptyView(sc))| == |sc.dims|
    ensures forall d :: 0 <= d < |sc.dims| ==> CombOf(EmptyView(sc))[d] == []
  {
    EmptyLayout(sc.indexDims);
    EmptySnapOK(sc, EmptyShifts(sc.indexDims));
    NewViewOK(sc, EmptySnap(sc, EmptyShifts(sc.indexDims)));
  }

  lemma CombWidth(sc: Schema, m: ViewV)
    requires ViewOK(sc, m)
    ensures |CombOf(m)| == |sc.dims|
  {
  }

  // A query is refused by every table exactly when some group's malformed condition has
  // only well-formed ranges before it.
  lemma AlwaysRefusedIff(sc: Schema, groups: seq<Group>)
    requires sc.Valid()
    ensures (forall m :: ViewOK(sc, m) ==> AnyInvalid(sc, CombOf(m), groups))
            <==> exists i :: 0 <= i < |groups| && SurelyRefused(sc, groups[i])
  {
    hide ViewOK, CombOf, SurelyRefused, JudgeGroup, EmptyView;
    if i :| 0 <= i < |groups| && SurelyRefused(sc, groups[i]) {
      forall m | ViewOK(sc, m) ensures AnyInvalid(sc, CombOf(m), groups) {
        CombWidth(sc, m);
        SureIsRefused(sc, CombOf(m), groups[i]);
      }
    }
    EmptyViewOK(sc);
    var none := CombOf(EmptyView(sc));
    if AnyInvalid(sc, none, groups) {
      var i :| 0 <= i < |groups| && JudgeGroup(sc, none, groups[i]).Invalid?;
      SureIsRefused(sc, none, groups[i]);
    }
  }

  // ---- A malformed query that is not ----

  const UNKNOWN_DIM: Group := [Cond("a", [97], [], None), Cond("b", [97], [], None)]

  // The second condition names no dimension, yet the empty table answers.
  lemma HiddenMalformed()
    ensures ViewOK(ONE_LABEL, EmptyView(ONE_LABEL))
    ensures !WellFormed(ONE_LABEL, UNKNOWN_DIM[1])
              && !AnyInvalid(ONE_LABEL, CombOf(EmptyView(ONE_LABEL)), [UNKNOWN_DIM])
  {
    hide ViewOK, EmptyView;
    var (sc, g) := (ONE_LABEL, UNKNOWN_DIM);
    EmptyViewOK(sc);
    var comb := CombOf(EmptyView(sc));
    assert sc.DimIndex("a") == 0 && sc.DimIndex("b") == -1;
    assert Judge(sc, comb, g[0]).Absent?;
    RefusedIff(sc, comb, g);
    assert forall i :: !RefusesAt(sc, comb, g, i);
  }
}
