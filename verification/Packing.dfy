// The packed index key: one 64-bit word holding the dictionary ids of the leading
// IndexDims dimensions, dimension 0 in the most significant bits.
module Packing {
  import opened Bits

  // Bits reserved for a dictionary of n entries (never fewer than one).
  function DictBits(n: nat): nat {
    if n <= 2 then 1 else BitLen(n - 1)
  }

  // DictBits is the least positive width holding every id below n.
  lemma DictBitsLeast(n: nat, w: nat)
    ensures DictBits(n) >= 1 && n <= Pow2(DictBits(n))
    ensures w >= 1 && n <= Pow2(w) ==> DictBits(n) <= w
  {
    if n > 2 {
      BitLenBounds(n - 1);
      if 1 <= w < DictBits(n) {
        Pow2Mono(w, DictBits(n) - 1);
      }
    }
  }

  lemma DictBitsMono(m: nat, n: nat)
    requires m <= n
    ensures DictBits(m) <= DictBits(n)
  {
    DictBitsLeast(m, DictBits(n));
    DictBitsLeast(n, 1);
  }

  // Total key width of the given dictionary cardinalities.
  function Width(cards: seq<nat>): nat {
    if |cards| == 0 then 0 else DictBits(cards[0]) + Width(cards[1..])
  }

  lemma {:induction false} WidthMono(a: seq<nat>, b: seq<nat>)
    requires |a| == |b| && forall i :: 0 <= i < |a| ==> a[i] <= b[i]
    ensures Width(a) <= Width(b)
  {
    if |a| == 0 {
    } else {
      DictBitsMono(a[0], b[0]);
      WidthMono(a[1..], b[1..]);
    }
  }

  // The layout of cards: every dimension sits just above all later ones.
  ghost predicate Layout(shifts: seq<nat>, cards: seq<nat>) {
    && |shifts| == |cards|
    && Width(cards) <= 64
    && forall i :: 0 <= i < |cards| ==> shifts[i] == Width(cards[i + 1..])
  }

  // ErrKeyOverflow is None; otherwise the shift of every index dimension.
  datatype Shifts = Overflow | Ok(shifts: seq<nat>)

  method ComputeShifts(cards: seq<nat>, indexDims: nat) returns (r: Shifts)
    requires indexDims <= |cards|
    ensures r.Overflow? <==> Width(cards[..indexDims]) > 64
    ensures r.Ok? ==> Layout(r.shifts, cards[..indexDims])
  {
    var idx := cards[..indexDims];
    var total := 0;
    var widths: seq<nat> := [];
    for i := 0 to indexDims
      invariant |widths| == i
      invariant forall j :: 0 <= j < i ==> widths[j] == DictBits(idx[j])
      invariant total + Width(idx[i..]) == Width(idx)
    {
      widths := widths + [DictBits(cards[i])];
      total := total + widths[i];
      assert idx[i..][1..] == idx[i + 1..];
    }
    if total > 64 {
      return Overflow;
    }
    var shifts := seq(indexDims, (_: nat) => 0);
    var s := 0;
    var i := indexDims;
    while i > 0
      invariant 0 <= i <= indexDims == |shifts|
      invariant s == Width(idx[i..])
      invariant forall j :: i <= j < indexDims ==> shifts[j] == Width(idx[j + 1..])
    {
      i := i - 1;
      assert idx[i..][1..] == idx[i + 1..];
      shifts := shifts[i := s];
      s := s + widths[i];
    }
    return Ok(shifts);
  }

  // The key as a sum of shifted ids.
  function KeyOf(shifts: seq<nat>, ids: seq<nat>): nat
    requires |shifts| <= |ids|
  {
    if |shifts| == 0 then 0
    else ids[0] * Pow2(shifts[0]) + KeyOf(shifts[1..], ids[1..])
  }

  // Every id fits the width of its dimension.
  ghost predicate Fits(cards: seq<nat>, ids: seq<nat>) {
    |cards| == |ids| && forall i :: 0 <= i < |ids| ==> ids[i] < Pow2(DictBits(cards[i]))
  }

  lemma FitsBelow(cards: seq<nat>, ids: seq<nat>)
    requires |cards| == |ids|
    requires forall i :: 0 <= i < |ids| ==> ids[i] < cards[i]
    ensures Fits(cards, ids)
  {
    forall i | 0 <= i < |ids| ensures ids[i] < Pow2(DictBits(cards[i])) {
      DictBitsLeast(cards[i], 1);
    }
  }

  ghost predicate LexLess(a: seq<nat>, b: seq<nat>)
    requires |a| == |b|
  {
    |a| > 0 && (a[0] < b[0] || (a[0] == b[0] && LexLess(a[1..], b[1..])))
  }

  lemma LayoutTail(shifts: seq<nat>, cards: seq<nat>)
    requires Layout(shifts, cards) && |cards| > 0
    ensures Layout(shifts[1..], cards[1..])
    ensures shifts[0] == Width(cards[1..])
  {
    forall i | 0 <= i < |cards| - 1 ensures shifts[1..][i] == Width(cards[1..][i + 1..]) {
      assert cards[1..][i + 1..] == cards[i + 2..];
    }
  }

  // Keys never outgrow the layout's width, hence stay below 2^64.
  lemma {:induction false} KeyBound(shifts: seq<nat>, cards: seq<nat>, ids: seq<nat>)
    requires Layout(shifts, cards) && Fits(cards, ids)
    ensures KeyOf(shifts, ids) < Pow2(Width(cards)) <= WORD
  {
    Pow2Mono(Width(cards), 64);
    Pow2Word();
    if |cards| == 0 {
    } else {
      LayoutTail(shifts, cards);
      KeyBound(shifts[1..], cards[1..], ids[1..]);
      MulStep(ids[0], Pow2(DictBits(cards[0])), Pow2(shifts[0]), KeyOf(shifts[1..], ids[1..]));
      Pow2Add(DictBits(cards[0]), shifts[0]);
    }
  }

  // Packing is an order isomorphism from lexicographic id order to integer order.
  lemma {:induction false} KeyOrder(shifts: seq<nat>, cards: seq<nat>, a: seq<nat>, b: seq<nat>)
    requires Layout(shifts, cards) && Fits(cards, a) && Fits(cards, b)
    ensures KeyOf(shifts, a) < KeyOf(shifts, b) <==> LexLess(a, b)
    ensures KeyOf(shifts, a) == KeyOf(shifts, b) <==> a == b
  {
    if |cards| == 0 {
    } else {
      LayoutTail(shifts, cards);
      var (s', c', a', b') := (shifts[1..], cards[1..], a[1..], b[1..]);
      KeyOrder(s', c', a', b');
      KeyBound(s', c', a');
      KeyBound(s', c', b');
      if a[0] < b[0] {
        MulStep(a[0], b[0], Pow2(shifts[0]), KeyOf(s', a'));
      } else if b[0] < a[0] {
        MulStep(b[0], a[0], Pow2(shifts[0]), KeyOf(s', b'));
      } else {
        assert a == b <==> a' == b' by {
          if a' == b' {
            assert a == [a[0]] + a' && b == [b[0]] + b';
          }
        }
      }
    }
  }

  // Lexicographic order survives a remapping of ids that is strictly monotone in
  // every dimension: the reason a renumbering merge keeps the base sorted.
  lemma {:induction false} LexRemap(a: seq<nat>, b: seq<nat>, a': seq<nat>, b': seq<nat>)
    requires |a| == |b| == |a'| == |b'|
    requires forall i :: 0 <= i < |a| ==> (a[i] < b[i] <==> a'[i] < b'[i]) && (a[i] == b[i] <==> a'[i] == b'[i])
    ensures LexLess(a, b) <==> LexLess(a', b')
  {
    if |a| == 0 {
    } else {
      LexRemap(a[1..], b[1..], a'[1..], b'[1..]);
    }
  }

  // Two keys under one layout, two keys under another: order and equality agree
  // whenever the ids agree in every dimension.
  lemma KeyRemap(shifts: seq<nat>, cards: seq<nat>, shifts': seq<nat>, cards': seq<nat>,
                 a: seq<nat>, b: seq<nat>, a': seq<nat>, b': seq<nat>)
    requires Layout(shifts, cards) && Fits(cards, a) && Fits(cards, b)
    requires Layout(shifts', cards') && Fits(cards', a') && Fits(cards', b')
    requires |cards| == |cards'|
    requires forall i :: 0 <= i < |a| ==> (a[i] < b[i] <==> a'[i] < b'[i]) && (a[i] == b[i] <==> a'[i] == b'[i])
    ensures KeyOf(shifts, a) <= KeyOf(shifts, b) ==> KeyOf(shifts', a') <= KeyOf(shifts', b')
  {
    KeyOrder(shifts, cards, a, b);
    KeyOrder(shifts', cards', a', b');
    LexRemap(a, b, a', b');
    assert a == b ==> a' == b';
  }

  // ---- The packing loop with `|` ----

  // Each shifted id lies strictly below the previous dimension's shift.
  ghost predicate NestedAt(shifts: seq<nat>, ids: seq<nat>, i: nat)
    requires i < |shifts| <= |ids|
  {
    ids[i] * Pow2(shifts[i]) < (if i == 0 then WORD else Pow2(shifts[i - 1]))
    && shifts[i] <= (if i == 0 then 64 else shifts[i - 1])
  }

  ghost predicate Nested(shifts: seq<nat>, ids: seq<nat>) {
    |shifts| <= |ids| && forall i :: 0 <= i < |shifts| ==> NestedAt(shifts, ids, i)
  }

  lemma LayoutNested(shifts: seq<nat>, cards: seq<nat>, ids: seq<nat>)
    requires Layout(shifts, cards) && Fits(cards, ids)
    ensures Nested(shifts, ids)
  {
    forall i | 0 <= i < |shifts| ensures NestedAt(shifts, ids, i) {
      LayoutNestedAt(shifts, cards, ids, i);
    }
  }

  lemma LayoutNestedAt(shifts: seq<nat>, cards: seq<nat>, ids: seq<nat>, i: nat)
    requires Layout(shifts, cards) && Fits(cards, ids) && i < |shifts|
    ensures NestedAt(shifts, ids, i)
  {
    var w := DictBits(cards[i]);
    WidthStep(cards, i);
    MulStep(ids[i], Pow2(w), Pow2(shifts[i]), 0);
    Pow2Add(w, shifts[i]);
    if i == 0 {
      assert cards[0..] == cards;
      Pow2Mono(Width(cards), 64);
      Pow2Word();
    }
  }

  lemma WidthStep(cards: seq<nat>, i: nat)
    requires i < |cards|
    ensures Width(cards[i..]) == DictBits(cards[i]) + Width(cards[i + 1..])
  {
    assert cards[i..][1..] == cards[i + 1..];
  }

  lemma {:induction false} KeySnoc(shifts: seq<nat>, ids: seq<nat>, i: nat)
    requires i < |shifts| <= |ids|
    ensures KeyOf(shifts[..i + 1], ids[..i + 1]) == KeyOf(shifts[..i], ids[..i]) + ids[i] * Pow2(shifts[i])
    decreases i
  {
    if i == 0 {
    } else {
      KeySnoc(shifts[1..], ids[1..], i - 1);
      assert shifts[..i + 1][1..] == shifts[1..][..i] && ids[..i + 1][1..] == ids[1..][..i];
      assert shifts[..i][1..] == shifts[1..][..i - 1] && ids[..i][1..] == ids[1..][..i - 1];
    }
  }

  // A key over dims 0..i is a multiple of dimension i's unit.
  lemma {:induction false} KeyMultiple(shifts: seq<nat>, ids: seq<nat>, i: nat)
    requires i < |shifts| && Nested(shifts, ids)
    ensures KeyOf(shifts[..i + 1], ids[..i + 1]) % Pow2(shifts[i]) == 0
    decreases i
  {
    KeySnoc(shifts, ids, i);
    var p := Pow2(shifts[i]);
    assert NestedAt(shifts, ids, i);
    if i == 0 {
      MultipleMod(ids[0], p);
    } else {
      KeyMultiple(shifts, ids, i - 1);
      Pow2Add(shifts[i - 1] - shifts[i], shifts[i]);
      MultipleAdd(KeyOf(shifts[..i], ids[..i]), Pow2(shifts[i - 1]), Pow2(shifts[i - 1] - shifts[i]), p, ids[i]);
    }
  }

  lemma MultipleAdd(k: nat, big: nat, gap: nat, p: nat, x: nat)
    requires big > 0 && p > 0 && big == gap * p && k % big == 0
    ensures (k + x * p) % p == 0
  {
    var q := k / big;
    assert k == q * big;
    assert q * (gap * p) == (q * gap) * p;
    assert k + x * p == (q * gap + x) * p;
    MultipleMod(q * gap + x, p);
  }

  lemma PackStep(shifts: seq<nat>, ids: seq<nat>, i: nat)
    requires i < |shifts| && Nested(shifts, ids)
    ensures Or(KeyOf(shifts[..i], ids[..i]), Shl(ids[i], shifts[i])) == KeyOf(shifts[..i + 1], ids[..i + 1])
  {
    KeySnoc(shifts, ids, i);
    assert NestedAt(shifts, ids, i);
    var t := ids[i] * Pow2(shifts[i]);
    if i == 0 {
      assert KeyOf(shifts[..0], ids[..0]) == 0;
      assert t < WORD;
    } else {
      ShiftBound(shifts, ids, i - 1);
      assert t < Pow2(shifts[i - 1]) <= WORD;
      KeyMultiple(shifts, ids, i - 1);
      OrIsSum(KeyOf(shifts[..i], ids[..i]), t, shifts[i - 1]);
    }
    SmallMod(t, WORD);
  }

  lemma SmallMod(t: nat, m: nat)
    requires t < m
    ensures t % m == t
  {
  }

  method PackKey(shifts: seq<nat>, ids: seq<nat>) returns (k: nat)
    requires Nested(shifts, ids)
    ensures k == KeyOf(shifts, ids)
  {
    k := 0;
    for i := 0 to |shifts|
      invariant k == KeyOf(shifts[..i], ids[..i])
    {
      PackStep(shifts, ids, i);
      k := Or(k, Shl(ids[i], shifts[i]));
    }
    assert shifts[..|shifts|] == shifts;
    KeyTake(shifts, ids);
  }

  // Only the leading ids matter.
  lemma {:induction false} KeyTake(shifts: seq<nat>, ids: seq<nat>)
    requires |shifts| <= |ids|
    ensures KeyOf(shifts, ids[..|shifts|]) == KeyOf(shifts, ids)
  {
    if |shifts| == 0 {
    } else {
      KeyTake(shifts[1..], ids[1..]);
      assert ids[..|shifts|][1..] == ids[1..][..|shifts| - 1];
    }
  }

  lemma {:induction false} ShiftBound(shifts: seq<nat>, ids: seq<nat>, i: nat)
    requires i < |shifts| && Nested(shifts, ids)
    ensures Pow2(shifts[i]) <= WORD
    decreases i
  {
    Pow2Word();
    assert NestedAt(shifts, ids, i);
    if i == 0 {
      Pow2Mono(shifts[0], 64);
    } else {
      ShiftBound(shifts, ids, i - 1);
      Pow2Mono(shifts[i], shifts[i - 1]);
    }
  }

  // ---- Prefix ranges ----

  lemma {:induction false} KeySplit(shifts: seq<nat>, ids: seq<nat>, k: nat)
    requires k <= |shifts| <= |ids|
    ensures KeyOf(shifts, ids) == KeyOf(shifts[..k], ids[..k]) + KeyOf(shifts[k..], ids[k..])
  {
    if k == 0 {
      assert shifts[0..] == shifts && ids[0..] == ids;
    } else {
      KeySplit(shifts[1..], ids[1..], k - 1);
      assert shifts[..k][1..] == shifts[1..][..k - 1] && ids[..k][1..] == ids[1..][..k - 1];
      assert shifts[1..][k - 1..] == shifts[k..] && ids[1..][k - 1..] == ids[k..];
    }
  }

  lemma {:induction false} LayoutDrop(shifts: seq<nat>, cards: seq<nat>, ids: seq<nat>, k: nat)
    requires Layout(shifts, cards) && Fits(cards, ids) && k <= |cards|
    ensures Layout(shifts[k..], cards[k..]) && Fits(cards[k..], ids[k..])
  {
    if k > 0 {
      LayoutTail(shifts, cards);
      LayoutDrop(shifts[1..], cards[1..], ids[1..], k - 1);
      assert shifts[1..][k - 1..] == shifts[k..] && cards[1..][k - 1..] == cards[k..] && ids[1..][k - 1..] == ids[k..];
    } else {
      assert shifts[0..] == shifts && cards[0..] == cards && ids[0..] == ids;
    }
  }

  // Prefix keys that differ, differ by a whole unit of the last prefix dimension.
  lemma PrefixGap(x: nat, y: nat, p: nat)
    requires p > 0 && x % p == 0 && y % p == 0 && x < y
    ensures x + p <= y
  {
    var (a, b) := (x / p, y / p);
    assert x == a * p && y == b * p;
    if b <= a {
      MulMono(b, a, p);
    }
    MulMono(a + 1, b, p);
  }

  lemma PrefixKeyInjective(shifts: seq<nat>, cards: seq<nat>, a: seq<nat>, b: seq<nat>, k: nat)
    requires Layout(shifts, cards) && k <= |cards| == |a| == |b| && Fits(cards, a) && Fits(cards, b)
    requires KeyOf(shifts[..k], a[..k]) == KeyOf(shifts[..k], b[..k])
    ensures a[..k] == b[..k]
  {
    // graft a's tail onto b: equal full keys, so equal ids
    var c := b[..k] + a[k..];
    KeySplit(shifts, a, k);
    KeySplit(shifts, c, k);
    assert c[..k] == b[..k] && c[k..] == a[k..];
    assert Fits(cards, c);
    KeyOrder(shifts, cards, a, c);
  }

  // The key range of a k-dimension prefix holds exactly the keys carrying it.
  lemma PrefixRange(shifts: seq<nat>, cards: seq<nat>, pre: seq<nat>, ids: seq<nat>, k: nat)
    requires Layout(shifts, cards) && Fits(cards, ids)
    requires 0 < k <= |cards| && |pre| == k && Fits(cards[..k], pre)
    ensures var lo := KeyOf(shifts[..k], pre);
            lo <= KeyOf(shifts, ids) <= lo + Pow2(shifts[k - 1]) - 1 <==> ids[..k] == pre
  {
    var unit := Pow2(shifts[k - 1]);
    KeySplit(shifts, ids, k);
    LayoutDrop(shifts, cards, ids, k);
    KeyBound(shifts[k..], cards[k..], ids[k..]);
    var full := pre + ids[k..];
    assert full[..k] == pre && full[k..] == ids[k..];
    forall i | 0 <= i < |full| ensures full[i] < Pow2(DictBits(cards[i])) {
      if i < k {
        assert full[i] == pre[i] && cards[..k][i] == cards[i];
      } else {
        assert full[i] == ids[i];
      }
    }
    LayoutNested(shifts, cards, ids);
    LayoutNested(shifts, cards, full);
    KeyMultiple(shifts, ids, k - 1);
    KeyMultiple(shifts, full, k - 1);
    var (x, lo) := (KeyOf(shifts[..k], ids[..k]), KeyOf(shifts[..k], pre));
    if x < lo {
      PrefixGap(x, lo, unit);
    } else if lo < x {
      PrefixGap(lo, x, unit);
    } else {
      PrefixKeyInjective(shifts, cards, ids, full, k);
    }
  }

  lemma OrTop(x: nat, s: nat)
    requires x % Pow2(s) == 0
    ensures Or(x, Pow2(s) - 1) == x + Pow2(s) - 1
  {
    OrIsSum(x, Pow2(s) - 1, s);
  }

  // The upper end of a prefix range is built with `|` from an all-ones tail.
  lemma PrefixTop(shifts: seq<nat>, ids: seq<nat>)
    requires Nested(shifts, ids) && |shifts| > 0
    ensures var low := Pow2(shifts[|shifts| - 1]) - 1;
            Or(KeyOf(shifts, ids), low) == KeyOf(shifts, ids) + low
  {
    hide Or;
    var n := |shifts|;
    KeyMultiple(shifts, ids, n - 1);
    assert shifts[..n] == shifts;
    KeyTake(shifts, ids);
    OrTop(KeyOf(shifts, ids), shifts[n - 1]);
  }
}
