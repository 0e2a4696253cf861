// What planning reaches, said of the query and the table alone: how each index
// dimension is covered, how deep the covered prefix goes, and which base rows it takes in.
module Reach {
  import opened Bits
  import opened Decimal
  import opened Table
  import opened Oracle
  import opened Upsert
  import opened Scratch
  import opened Conditions

  // ---- One dimension ----

  // The last equality on a dimension pins it, whatever else stands there; otherwise the
  // first IN lists its candidates.
  datatype Pin = Open | Pinned(value: Text) | Listed(ins: seq<Text>)

  function PinWith(sc: Schema, prev: Pin, c: Cond, d: nat): Pin {
    if sc.DimIndex(c.dim) != d || c.range.Some? then prev
    else if |c.ins| > 0 then (if prev.Open? then Listed(c.ins) else prev)
    else Pinned(c.value)
  }

  function PinOf(sc: Schema, g: Group, d: nat): Pin {
    if |g| == 0 then Open else PinWith(sc, PinOf(sc, g[..|g| - 1], d), g[|g| - 1], d)
  }

  predicate DimHolds(sc: Schema, pin: Pin, d: nat, v: Value)
    requires d < |sc.dims|
  {
    match pin
    case Open => true
    case Pinned(s) => ValueOf(sc, d, s) == Some(v)
    case Listed(ins) => exists i :: 0 <= i < |ins| && ValueOf(sc, d, ins[i]) == Some(v)
  }

  // ---- Depth ----

  // Index combinations dimension d contributes: base-resident candidates, with repetition.
  function Choices(sc: Schema, base: Dicts, g: Group, d: nat): nat {
    match PinOf(sc, g, d)
    case Open => 0
    case Pinned(_) => 1
    case Listed(ins) => if d < |sc.dims| && d < |base| then ListCount(sc, base[d], d, ins, |ins|) else 0
  }

  function Combos(sc: Schema, base: Dicts, g: Group, k: nat): nat {
    if k == 0 then 1 else Combos(sc, base, g, k - 1) * Choices(sc, base, g, k - 1)
  }

  // Expanding costs more than a scan, or needs more interval slots than there are.
  predicate TooMany(combos: nat, nRows: nat, room: Option<nat>) {
    combos * BitLen(nRows) > nRows || (room.Some? && combos > room.value)
  }

  // Dimension d extends the covered prefix.
  predicate Joins(sc: Schema, base: Dicts, g: Group, d: nat, nRows: nat, room: Option<nat>) {
    match PinOf(sc, g, d)
    case Open => false
    case Pinned(_) => true
    case Listed(_) => Choices(sc, base, g, d) > 0 && !TooMany(Combos(sc, base, g, d + 1), nRows, room)
  }

  // The most probes a binary search over n rows takes.
  ghost predicate Probes(n: nat, p: nat) {
    n < Pow2(p) && forall q: nat :: n < Pow2(q) ==> p <= q
  }

  lemma ProbesAre(n: nat, p: nat)
    requires Probes(n, p)
    ensures p == BitLen(n)
  {
    BitLenBounds(n);
    if p < BitLen(n) {
      Pow2Mono(p, BitLen(n) - 1);
    }
  }

  // A listed dimension joins exactly when some base value is listed, probing once for every
  // combination costs no more than visiting every row, and there is a slot for each.
  lemma ListedJoins(sc: Schema, base: Dicts, g: Group, d: nat, nRows: nat, room: Option<nat>, p: nat)
    requires Probes(nRows, p) && PinOf(sc, g, d).Listed?
    ensures Joins(sc, base, g, d, nRows, room) <==>
              Choices(sc, base, g, d) > 0 && Combos(sc, base, g, d + 1) * p <= nRows
              && (room.Some? ==> Combos(sc, base, g, d + 1) <= room.value)
  {
    hide Combos, Choices, PinOf, Probes;
    ProbesAre(nRows, p);
  }

  // So whatever is expanded costs no more than the scan it replaces.
  lemma {:induction false} ExpandedIsCheap(sc: Schema, base: Dicts, g: Group, k: nat, nRows: nat, room: Option<nat>,
          p: nat, d: nat)
    requires Probes(nRows, p) && d < k && PinOf(sc, g, d).Listed?
    requires forall e: nat :: e < k ==> Joins(sc, base, g, e, nRows, room)
    ensures Combos(sc, base, g, k) * p <= nRows && (room.Some? ==> Combos(sc, base, g, k) <= room.value)
    decreases k
  {
    hide Choices, PinOf, Probes, ListCount;
    assert Joins(sc, base, g, k - 1, nRows, room);
    if PinOf(sc, g, k - 1).Listed? {
      ListedJoins(sc, base, g, k - 1, nRows, room, p);
    } else {
      PinnedOnce(sc, base, g, k - 1);
      ExpandedIsCheap(sc, base, g, k - 1, nRows, room, p, d);
    }
  }

  lemma PinnedOnce(sc: Schema, base: Dicts, g: Group, d: nat)
    requires PinOf(sc, g, d).Pinned?
    ensures Combos(sc, base, g, d + 1) == Combos(sc, base, g, d)
  {
  }

  // The first index dimension from k on that does not.
  function DepthFrom(sc: Schema, base: Dicts, g: Group, k: nat, nRows: nat, room: Option<nat>): (n: nat)
    requires k <= sc.indexDims
    ensures k <= n <= sc.indexDims
    ensures forall d :: k <= d < n ==> Joins(sc, base, g, d, nRows, room)
    ensures n < sc.indexDims ==> !Joins(sc, base, g, n, nRows, room)
    decreases sc.indexDims - k
  {
    if k < sc.indexDims && Joins(sc, base, g, k, nRows, room) then DepthFrom(sc, base, g, k + 1, nRows, room) else k
  }

  function PrefixDepth(sc: Schema, base: Dicts, g: Group, nRows: nat, room: Option<nat>): (n: nat)
    ensures n <= sc.indexDims
    ensures forall d :: 0 <= d < n ==> Joins(sc, base, g, d, nRows, room)
    ensures n < sc.indexDims ==> !Joins(sc, base, g, n, nRows, room)
  {
    DepthFrom(sc, base, g, 0, nRows, room)
  }

  // That says which number it is.
  lemma DepthUnique(sc: Schema, base: Dicts, g: Group, nRows: nat, room: Option<nat>, k: nat)
    requires k <= sc.indexDims && forall d :: 0 <= d < k ==> Joins(sc, base, g, d, nRows, room)
    requires k < sc.indexDims ==> !Joins(sc, base, g, k, nRows, room)
    ensures PrefixDepth(sc, base, g, nRows, room) == k
  {
    hide Joins;
  }

  // ---- When room is no limit ----

  function Slots(pin: Pin): (n: nat)
    ensures n >= 1
  {
    if pin.Listed? && |pin.ins| > 0 then |pin.ins| else 1
  }

  // Interval slots the first k dimensions can ask for.
  function SlotProd(sc: Schema, g: Group, k: nat): (n: nat)
    ensures n >= 1
  {
    if k == 0 then 1 else MulPos(SlotProd(sc, g, k - 1), Slots(PinOf(sc, g, k - 1)))
  }

  lemma {:induction false} ListCountBound(sc: Schema, dict: seq<Value>, d: nat, ins: seq<Text>, n: nat)
    requires d < |sc.dims| && n <= |ins|
    ensures ListCount(sc, dict, d, ins, n) <= n
  {
    if n == 0 {
    } else {
      ListCountBound(sc, dict, d, ins, n - 1);
    }
  }

  lemma {:induction false} CombosFit(sc: Schema, base: Dicts, g: Group, k: nat)
    ensures Combos(sc, base, g, k) <= SlotProd(sc, g, k)
  {
    hide PinOf, ListCount;
    if k == 0 {
    } else {
      CombosFit(sc, base, g, k - 1);
      ChoicesFit(sc, base, g, k - 1);
      MulBoth(Combos(sc, base, g, k - 1), SlotProd(sc, g, k - 1), Choices(sc, base, g, k - 1),
        Slots(PinOf(sc, g, k - 1)));
    }
  }

  lemma ChoicesFit(sc: Schema, base: Dicts, g: Group, d: nat)
    ensures Choices(sc, base, g, d) <= Slots(PinOf(sc, g, d))
  {
    match PinOf(sc, g, d)
    case Listed(ins) =>
      if d < |sc.dims| && d < |base| {
        ListCountBound(sc, base[d], d, ins, |ins|);
      }
    case Open =>
    case Pinned(_) =>
  }

  lemma MulBoth(a: nat, b: nat, x: nat, y: nat)
    requires a <= b && x <= y
    ensures a * x <= b * y
  {
    MulMono(a, b, x);
    MulMono(x, y, b);
    assert b * x == x * b && b * y == y * b;
  }

  // One more condition multiplies the demand by the length of its list, at most.
  lemma {:induction false} SlotsStep(sc: Schema, g: Group, k: nat)
    requires |g| > 0
    ensures var (h, c) := (g[..|g| - 1], g[|g| - 1]);
            var (d, n) := (sc.DimIndex(c.dim), if |c.ins| > 0 then |c.ins| else 1);
            SlotProd(sc, g, k) <= SlotProd(sc, h, k) * (if d < k then n else 1)
  {
    if k == 0 {
    } else {
      var (h, c) := (g[..|g| - 1], g[|g| - 1]);
      var (d, n) := (sc.DimIndex(c.dim), if |c.ins| > 0 then |c.ins| else 1);
      SlotsStep(sc, g, k - 1);
      var (was, now) := (SlotProd(sc, h, k - 1), SlotProd(sc, g, k - 1));
      var (x, y) := (Slots(PinOf(sc, h, k - 1)), Slots(PinOf(sc, g, k - 1)));
      if d == k - 1 {
        assert y <= x * n by { PinFactor(sc, h, c, d); }
        MulBoth(now, was, y, x * n);
        MulAssoc(was, x, n);
      } else {
        assert x == y;
        MulBoth(now, was * (if d < k - 1 then n else 1), y, x);
        Swap(was, n, x);
      }
    }
  }

  lemma PinFactor(sc: Schema, h: Group, c: Cond, d: int)
    requires 0 <= d
    ensures Slots(PinWith(sc, PinOf(sc, h, d), c, d)) <= Slots(PinOf(sc, h, d)) * (if |c.ins| > 0 then |c.ins| else 1)
  {
    MulGrows(Slots(PinOf(sc, h, d)), if |c.ins| > 0 then |c.ins| else 1);
    MulGrows(if |c.ins| > 0 then |c.ins| else 1, Slots(PinOf(sc, h, d)));
  }

  lemma Swap(a: nat, b: nat, c: nat)
    ensures a * b * c == a * c * b
  {
    assert b * c == c * b;
    MulAssoc(a, b, c);
    MulAssoc(a, c, b);
  }

  lemma {:induction false} SlotsFit(sc: Schema, g: Group, k: nat)
    ensures SlotProd(sc, g, k) <= InProduct(g)
  {
    if |g| == 0 {
      NoSlots(sc, k);
    } else {
      var (h, c) := (g[..|g| - 1], g[|g| - 1]);
      SlotsFit(sc, h, k);
      SlotsStep(sc, g, k);
      var n := if |c.ins| > 0 then |c.ins| else 1;
      MulMono(SlotProd(sc, h, k), InProduct(h), n);
      MulGrows(SlotProd(sc, h, k), n);
    }
  }

  lemma {:induction false} NoSlots(sc: Schema, k: nat)
    ensures SlotProd(sc, [], k) == 1
  {
    if k == 0 {
    } else {
      NoSlots(sc, k - 1);
    }
  }

  // Expansion never asks for more slots than the product of the group's list lengths.
  lemma CombosBound(sc: Schema, base: Dicts, g: Group, k: nat)
    ensures Combos(sc, base, g, k) <= InProduct(g)
  {
    CombosFit(sc, base, g, k);
    SlotsFit(sc, g, k);
  }

  lemma {:induction false} NothingListed(sc: Schema, g: Group, d: nat)
    requires Count(g, InConds) == 0
    ensures !PinOf(sc, g, d).Listed?
  {
    if |g| == 0 {
    } else {
      NothingListed(sc, g[..|g| - 1], d);
    }
  }

  // With that many slots free, or no list at all, only the cost ever stops the prefix.
  lemma RoomIsEnough(sc: Schema, base: Dicts, g: Group, nRows: nat, room: nat)
    requires InProduct(g) <= room || Count(g, InConds) == 0
    ensures PrefixDepth(sc, base, g, nRows, Some(room)) == PrefixDepth(sc, base, g, nRows, None)
  {
    hide PrefixDepth, Combos, Choices, PinOf, InProduct, Count;
    var k := PrefixDepth(sc, base, g, nRows, None);
    forall d: nat | d < sc.indexDims
      ensures Joins(sc, base, g, d, nRows, Some(room)) <==> Joins(sc, base, g, d, nRows, None)
    {
      CombosBound(sc, base, g, d + 1);
      if Count(g, InConds) == 0 {
        NothingListed(sc, g, d);
      }
    }
    DepthUnique(sc, base, g, nRows, Some(room), k);
  }

  // ---- Rows ----

  predicate PrefixHolds(sc: Schema, g: Group, t: Tuple, k: nat) {
    forall d: nat :: d < k && d < |sc.dims| && d < |t| ==> DimHolds(sc, PinOf(sc, g, d), d, t[d])
  }

  // Some value the condition names is in the base dictionary.
  predicate InBase(sc: Schema, base: Dicts, c: Cond) {
    var d := sc.DimIndex(c.dim);
    c.range.Some? || (0 <= d < |base| &&
      if |c.ins| > 0 then exists i ::
        0 <= i < |c.ins| && ValueOf(sc, d, c.ins[i]).Some? && ValueOf(sc, d, c.ins[i]).value in base[d]
      else ValueOf(sc, d, c.value).Some? && ValueOf(sc, d, c.value).value in base[d])
  }

  // Base rows are looked at for this group at all.
  ghost predicate Plannable(sc: Schema, m: ViewV, g: Group) {
    && |CombOf(m)| == |sc.dims| && JudgeGroup(sc, CombOf(m), g).Usable?
    && forall i :: 0 <= i < |g| ==> InBase(sc, m.base.dicts, g[i])
  }

  // Base row r lies in the intervals of group g. room is the free interval slots, None
  // when they are no limit.
  ghost predicate GroupReaches(sc: Schema, m: ViewV, g: Group, room: Option<nat>, r: nat) {
    && r < |m.base.rows| && Plannable(sc, m, g)
    && PrefixHolds(sc, g, Decode(CombOf(m), m.base.rows[r].ids), PrefixDepth(sc, m.base.dicts, g, |m.base.rows|, room))
  }

  ghost predicate Reaches(sc: Schema, m: ViewV, groups: seq<Group>, rooms: seq<Option<nat>>, r: nat) {
    exists i :: 0 <= i < |groups| && i < |rooms| && GroupReaches(sc, m, groups[i], rooms[i], r)
  }

  // ---- Slots ----

  // Entry i of the pin (0 of an equality) names value v.
  predicate PickHolds(sc: Schema, pin: Pin, i: nat, d: nat, v: Value)
    requires d < |sc.dims|
  {
    match pin
    case Open => false
    case Pinned(s) => i == 0 && ValueOf(sc, d, s) == Some(v)
    case Listed(ins) => i < |ins| && ValueOf(sc, d, ins[i]) == Some(v)
  }

  // w picks an entry for each leading dimension; together they name some base row.
  ghost predicate NamesRow(sc: Schema, m: ViewV, g: Group, w: seq<nat>) {
    exists r: nat :: r < |m.base.rows| && Spells(sc, g, w, Decode(CombOf(m), m.base.rows[r].ids))
  }

  ghost predicate Spells(sc: Schema, g: Group, w: seq<nat>, t: Tuple) {
    forall d: nat :: d < |w| ==> d < |sc.dims| && d < |t| && PickHolds(sc, PinOf(sc, g, d), w[d], d, t[d])
  }

  ghost predicate Spelled(sc: Schema, m: ViewV, g: Group, k: nat, picks: set<seq<nat>>) {
    forall w :: w in picks <==> |w| == k && NamesRow(sc, m, g, w)
  }

  // A group takes one interval slot for every pick of list entries that names a base row.
  ghost predicate SlotsTaken(sc: Schema, m: ViewV, g: Group, room: Option<nat>, used: nat) {
    if Plannable(sc, m, g)
    then exists picks ::
      Spelled(sc, m, g, PrefixDepth(sc, m.base.dicts, g, |m.base.rows|, room), picks) && |picks| == used
    else used == 0
  }

  lemma SlotsUnique(sc: Schema, m: ViewV, g: Group, room: Option<nat>, a: nat, b: nat)
    requires SlotsTaken(sc, m, g, room, a) && SlotsTaken(sc, m, g, room, b)
    ensures a == b
  {
    hide NamesRow, Plannable, PrefixDepth;
    if Plannable(sc, m, g) {
      var k := PrefixDepth(sc, m.base.dicts, g, |m.base.rows|, room);
      var x :| Spelled(sc, m, g, k, x) && |x| == a;
      var y :| Spelled(sc, m, g, k, y) && |y| == b;
      assert x == y;
    }
  }

  function Unlimited(n: nat): (rooms: seq<Option<nat>>)
    ensures |rooms| == n
  {
    seq(n, (_: nat) => None)
  }

  // A group reaches every base row that satisfies it.
  lemma MatchIsReached(sc: Schema, m: ViewV, g: Group, room: Option<nat>, r: nat)
    requires ViewOK(sc, m) && r < |m.base.rows| && Plannable(sc, m, g)
    requires Matches(sc, Decode(CombOf(m), m.base.rows[r].ids), g)
    ensures GroupReaches(sc, m, g, room, r)
  {
    hide MatchesCond, DimHolds, Decode, ViewOK, Joins;
    var t := Decode(CombOf(m), m.base.rows[r].ids);
    forall d: nat | d < |sc.dims| && d < |t| ensures DimHolds(sc, PinOf(sc, g, d), d, t[d]) {
      MatchPins(sc, t, g, d);
    }
  }

  lemma {:induction false} MatchPins(sc: Schema, t: Tuple, g: Group, d: nat)
    requires d < |sc.dims| && d < |t| && Matches(sc, t, g)
    ensures DimHolds(sc, PinOf(sc, g, d), d, t[d])
  {
    if |g| == 0 {
    } else {
      var n := |g| - 1;
      assert forall i :: 0 <= i < n ==> MatchesCond(sc, t, g[..n][i]) by {
        assert forall i :: 0 <= i < n ==> g[..n][i] == g[i];
      }
      MatchPins(sc, t, g[..n], d);
      assert MatchesCond(sc, t, g[n]);
    }
  }
}
