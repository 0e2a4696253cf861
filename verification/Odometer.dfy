// Mixed-radix counting: the odometer that walks a cartesian product of candidate sets.
module Odometer {
  import opened Bits
  import opened Scratch

  function Prod(radix: seq<nat>): nat {
    if |radix| == 0 then 1 else Prod(radix[..|radix| - 1]) * radix[|radix| - 1]
  }

  ghost predicate InBox(radix: seq<nat>, idx: seq<nat>) {
    |idx| == |radix| && forall d :: 0 <= d < |idx| ==> idx[d] < radix[d]
  }

  // The number an odometer reading stands for; the last digit moves fastest.
  function Rank(radix: seq<nat>, idx: seq<nat>): nat
    requires |idx| == |radix|
  {
    if |radix| == 0 then 0
    else
      var n := |radix| - 1;
      Rank(radix[..n], idx[..n]) * radix[n] + idx[n]
  }

  lemma BoxInit(radix: seq<nat>, idx: seq<nat>)
    requires InBox(radix, idx) && |idx| > 0
    ensures InBox(radix[..|idx| - 1], idx[..|idx| - 1])
  {
  }

  lemma {:induction false} RankBound(radix: seq<nat>, idx: seq<nat>)
    requires InBox(radix, idx)
    ensures Rank(radix, idx) < Prod(radix)
  {
    if |idx| == 0 {
    } else {
      var n := |idx| - 1;
      BoxInit(radix, idx);
      RankBound(radix[..n], idx[..n]);
      MulStep(Rank(radix[..n], idx[..n]), Prod(radix[..n]), radix[n], idx[n]);
    }
  }

  lemma DigitsUnique(q: nat, r: nat, q': nat, r': nat, m: nat)
    requires r < m && r' < m && q * m + r == q' * m + r'
    ensures q == q' && r == r'
  {
    if q < q' {
      MulStep(q, q', m, r);
    } else if q' < q {
      MulStep(q', q, m, r');
    }
  }

  // Readings and numbers correspond one to one.
  lemma {:induction false} RankInjective(radix: seq<nat>, a: seq<nat>, b: seq<nat>)
    requires InBox(radix, a) && InBox(radix, b) && Rank(radix, a) == Rank(radix, b)
    ensures a == b
  {
    if |a| == 0 {
    } else {
      var n := |a| - 1;
      BoxInit(radix, a);
      BoxInit(radix, b);
      DigitsUnique(Rank(radix[..n], a[..n]), a[n], Rank(radix[..n], b[..n]), b[n], radix[n]);
      RankInjective(radix[..n], a[..n], b[..n]);
      assert a == a[..n] + [a[n]] && b == b[..n] + [b[n]];
    }
  }

  // Digits after position d at their maximum, against digits after d at zero with one
  // more to the left: consecutive numbers.
  lemma {:induction false} CarryRank(radix: seq<nat>, a: seq<nat>, b: seq<nat>, d: nat)
    requires |a| == |b| == |radix| && d < |radix|
    requires forall j :: d < j < |a| ==> a[j] + 1 == radix[j] && b[j] == 0
    requires a[..d] == b[..d] && b[d] == a[d] + 1
    ensures Rank(radix, b) == Rank(radix, a) + 1
  {
    var n := |radix| - 1;
    if d == n {
    } else {
      assert a[..n][..d] == a[..d] && b[..n][..d] == b[..d];
      CarryRank(radix[..n], a[..n], b[..n], d);
      CarryStep(Rank(radix[..n], a[..n]), radix[n]);
    }
  }

  lemma CarryStep(q: nat, m: nat)
    requires m >= 1
    ensures (q + 1) * m == q * m + (m - 1) + 1
  {
  }

  lemma {:induction false} MaxRank(radix: seq<nat>, a: seq<nat>)
    requires |a| == |radix| && forall j :: 0 <= j < |a| ==> a[j] + 1 == radix[j]
    ensures Rank(radix, a) + 1 == Prod(radix)
  {
    if |a| == 0 {
    } else {
      var n := |a| - 1;
      MaxRank(radix[..n], a[..n]);
      CarryStep(Rank(radix[..n], a[..n]), radix[n]);
    }
  }

  lemma {:induction false} ZeroRank(radix: seq<nat>, a: seq<nat>)
    requires |a| == |radix| && forall j :: 0 <= j < |a| ==> a[j] == 0
    ensures Rank(radix, a) == 0
  {
    if |a| == 0 {
    } else {
      ZeroRank(radix[..|a| - 1], a[..|a| - 1]);
    }
  }

  // One tick: the least significant free digit advances, full ones carry left. A pinned
  // digit has radix 1 and never moves. False means every reading has been seen.
  method Advance(radix: seq<nat>, pinned: seq<bool>, idx: seq<nat>) returns (next: seq<nat>, more: bool)
    requires InBox(radix, idx) && |pinned| == |radix|
    requires forall d :: 0 <= d < |radix| && pinned[d] ==> radix[d] == 1
    ensures more ==> InBox(radix, next) && Rank(radix, next) == Rank(radix, idx) + 1
    ensures !more ==> Rank(radix, idx) + 1 == Prod(radix)
  {
    next := idx;
    var d := |radix|;
    while d > 0
      invariant 0 <= d <= |radix| == |next|
      invariant forall j :: 0 <= j < d ==> next[j] == idx[j]
      invariant forall j :: d <= j < |radix| ==> next[j] == 0 && idx[j] + 1 == radix[j]
    {
      d := d - 1;
      if !pinned[d] {
        next := next[d := next[d] + 1];
        if next[d] < radix[d] {
          assert idx[..d] == next[..d];
          CarryRank(radix, idx, next, d);
          return next, true;
        }
        next := next[d := 0];
      }
    }
    MaxRank(radix, idx);
    more := false;
  }

  // ---- Products ----

  lemma {:induction false} ProdPositive(radix: seq<nat>)
    requires forall d :: 0 <= d < |radix| ==> radix[d] >= 1
    ensures Prod(radix) >= 1
  {
    if |radix| == 0 {
    } else {
      ProdPositive(radix[..|radix| - 1]);
      MulGrows(Prod(radix[..|radix| - 1]), radix[|radix| - 1]);
    }
  }
}
