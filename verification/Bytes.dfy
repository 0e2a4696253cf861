// Little-endian words and counted lists of items over byte sequences: what is written,
// and how it is read back.
module Bytes {
  import opened Bits
  import opened Decimal

  // ---- Words ----

  function Pow256(k: nat): (p: nat)
    ensures p >= 1
  {
    if k == 0 then 1 else 256 * Pow256(k - 1)
  }

  // The low k bytes of n, least significant first.
  function LE(n: nat, k: nat): (b: Text)
    ensures |b| == k
  {
    if k == 0 then [] else [n % 256] + LE(n / 256, k - 1)
  }

  function UnLE(b: Text): nat {
    if |b| == 0 then 0 else b[0] + 256 * UnLE(b[1..])
  }

  lemma {:induction false} UnLEOfLE(n: nat, k: nat)
    ensures UnLE(LE(n, k)) == n % Pow256(k)
  {
    if k == 0 {
    } else {
      UnLEOfLE(n / 256, k - 1);
      assert LE(n, k)[1..] == LE(n / 256, k - 1);
      DigitSplit(n, Pow256(k - 1));
    }
  }

  lemma DigitSplit(n: nat, p: nat)
    requires p >= 1
    ensures n % 256 + 256 * (n / 256 % p) == n % (256 * p)
  {
    var (q, r) := (n / 256, n % 256);
    var (a, b) := (q / p, q % p);
    assert q == p * a + b;
    assert n == 256 * q + r == (256 * p) * a + (256 * b + r) by {
      assert 256 * (p * a) == (256 * p) * a;
    }
    assert 256 * b + r < 256 * p by {
      assert b <= p - 1;
    }
    Remainder(n, 256 * p, a, 256 * b + r);
  }

  lemma Remainder(n: nat, m: nat, q: nat, r: nat)
    requires m >= 1 && n == m * q + r && r < m
    ensures n % m == r
  {
    var (q', r') := (n / m, n % m);
    assert n == m * q' + r';
    if q' > q {
      MulGap(m, q, q');
    } else if q' < q {
      MulGap(m, q', q);
    }
  }

  lemma MulGap(m: nat, a: nat, b: nat)
    requires a < b
    ensures m * b >= m * a + m
  {
    assert (a + 1) * m <= b * m by { MulMono(a + 1, b, m); }
    assert (a + 1) * m == a * m + m;
  }

  // Byte i weighs 256 to the i.
  lemma {:induction false} LEAt(n: nat, k: nat, i: nat)
    requires i < k
    ensures LE(n, k)[i] == n / Pow256(i) % 256
  {
    if i == 0 {
    } else {
      LEAt(n / 256, k - 1, i - 1);
      DivTwice(n, 256, Pow256(i - 1));
    }
  }

  lemma DivTwice(n: nat, a: nat, b: nat)
    requires a >= 1 && b >= 1
    ensures a * b >= 1 && n / a / b == n / (a * b)
  {
    var (q, r) := (n / a, n % a);
    var (x, y) := (q / b, q % b);
    assert n == (a * b) * x + (a * y + r) by {
      assert q == b * x + y && n == a * q + r;
      assert a * (b * x) == (a * b) * x;
      assert a * (b * x + y) == a * (b * x) + a * y;
    }
    assert a * y + r < a * b by {
      MulMono(y + 1, b, a);
      assert (y + 1) * a == a * y + a && b * a == a * b;
    }
    MulMono(1, a, b);
    Quotient(n, a * b, x, a * y + r);
  }

  lemma Quotient(n: nat, m: nat, q: nat, r: nat)
    requires m >= 1 && n == m * q + r && r < m
    ensures n / m == q
  {
    var (q', r') := (n / m, n % m);
    assert n == m * q' + r';
    if q' > q {
      MulGap(m, q, q');
    } else if q' < q {
      MulGap(m, q', q);
    }
  }

  lemma LowByte(c: byte, n: nat)
    ensures (c + 256 * n) % 256 == c && (c + 256 * n) / 256 == n
  {
  }

  lemma {:induction false} LEOfUnLE(b: Text)
    ensures LE(UnLE(b), |b|) == b
    ensures UnLE(b) < Pow256(|b|)
  {
    if |b| == 0 {
    } else {
      LEOfUnLE(b[1..]);
      LowByte(b[0], UnLE(b[1..]));
      assert b == [b[0]] + b[1..];
    }
  }

  const TWO32: int := 0x1_0000_0000
  const TWO63: int := 0x8000_0000_0000_0000
  const TWO64: int := 0x1_0000_0000_0000_0000

  lemma WordSizes()
    ensures Pow256(4) == TWO32 && Pow256(8) == TWO64
  {
    assert Pow256(2) == 0x1_0000;
    assert Pow256(4) == 0x1_0000_0000;
    assert Pow256(6) == 0x1_0000_0000_0000;
  }

  // uint64(int64) and back.
  function Word(n: int): (w: nat)
    ensures w < TWO64
  {
    n % TWO64
  }

  function Signed(w: nat): int {
    if w >= TWO63 then w - TWO64 else w
  }

  lemma SignedOfWord(n: int)
    requires Int64(n)
    ensures Signed(Word(n)) == n
  {
  }

  lemma WordOfSigned(w: nat)
    requires w < TWO64
    ensures Word(Signed(w)) == w && Int64(Signed(w))
  {
  }

  // ---- Reading ----

  datatype Parsed<+T> = Fail | Got(val: T, rest: Text)

  function GetBytes(b: Text, n: nat): Parsed<Text> {
    if |b| < n then Fail else Got(b[..n], b[n..])
  }

  function GetLE(b: Text, k: nat): Parsed<nat> {
    if |b| < k then Fail else Got(UnLE(b[..k]), b[k..])
  }

  lemma GetPut(n: nat, k: nat, rest: Text)
    requires n < Pow256(k)
    ensures GetLE(LE(n, k) + rest, k) == Got(n, rest)
  {
    assert (LE(n, k) + rest)[..k] == LE(n, k);
    UnLEOfLE(n, k);
    Remainder(n, Pow256(k), 0, n);
  }

  lemma PutGet(b: Text, k: nat)
    requires GetLE(b, k).Got?
    ensures b == LE(GetLE(b, k).val, k) + GetLE(b, k).rest && GetLE(b, k).val < Pow256(k)
  {
    LEOfUnLE(b[..k]);
  }

  // ---- Lists ----

  // n items, item i read by p(i, _).
  function GetMany<T>(p: (nat, Text) -> Parsed<T>, b: Text, n: nat): Parsed<seq<T>> {
    if n == 0 then Got([], b)
    else
      match GetMany(p, b, n - 1)
      case Fail => Fail
      case Got(vs, r) =>
        match p(n - 1, r)
        case Fail => Fail
        case Got(v, r') => Got(vs + [v], r')
  }

  // Items written by e.
  function PutMany<T>(e: T -> Text, vs: seq<T>): Text {
    if |vs| == 0 then [] else PutMany(e, vs[..|vs| - 1]) + e(vs[|vs| - 1])
  }

  lemma PutManyAdd<T>(e: T -> Text, vs: seq<T>, v: T)
    ensures PutMany(e, vs + [v]) == PutMany(e, vs) + e(v)
  {
    assert (vs + [v])[..|vs|] == vs;
  }

  // Item i reads back from what was written, whatever follows.
  ghost predicate ReadsBack<T>(p: (nat, Text) -> Parsed<T>, e: T -> Text, i: nat, v: T) {
    forall r: Text :: p(i, e(v) + r) == Got(v, r)
  }

  lemma ReadBack<T>(p: (nat, Text) -> Parsed<T>, e: T -> Text, i: nat, v: T, r: Text)
    requires ReadsBack(p, e, i, v)
    ensures p(i, e(v) + r) == Got(v, r)
  {
  }

  lemma PutManyLast<T>(e: T -> Text, vs: seq<T>, rest: Text)
    requires |vs| > 0
    ensures PutMany(e, vs) + rest == PutMany(e, vs[..|vs| - 1]) + (e(vs[|vs| - 1]) + rest)
  {
    CatAssoc(PutMany(e, vs[..|vs| - 1]), e(vs[|vs| - 1]), rest);
  }

  lemma CatAssoc(a: Text, b: Text, c: Text)
    ensures (a + b) + c == a + (b + c)
  {
  }

  lemma {:induction false} ManyRoundTrip<T>(p: (nat, Text) -> Parsed<T>, e: T -> Text, vs: seq<T>, rest: Text)
    requires forall i: nat :: i < |vs| ==> ReadsBack(p, e, i, vs[i])
    ensures GetMany(p, PutMany(e, vs) + rest, |vs|) == Got(vs, rest)
    decreases |vs|
  {
    hide ReadsBack, PutMany;
    if |vs| == 0 {
      NothingPut(e, vs, rest);
    } else {
      var n := |vs| - 1;
      var last := e(vs[n]) + rest;
      ManyRoundTrip(p, e, vs[..n], last);
      PutManyLast(e, vs, rest);
      ReadBack(p, e, n, vs[n], rest);
      assert vs[..n] + [vs[n]] == vs;
    }
  }

  lemma NothingPut<T>(e: T -> Text, vs: seq<T>, rest: Text)
    requires |vs| == 0
    ensures PutMany(e, vs) + rest == rest
  {
  }

  // What is read is what was written there, item by item.
  lemma {:induction false} ManySound<T>(p: (nat, Text) -> Parsed<T>, e: T -> Text, b: Text, n: nat)
    requires GetMany(p, b, n).Got?
    requires forall i: nat, x: Text :: i < n && p(i, x).Got? ==> x == e(p(i, x).val) + p(i, x).rest
    ensures b == PutMany(e, GetMany(p, b, n).val) + GetMany(p, b, n).rest
  {
    if n == 0 {
      assert [] + b == b;
    } else {
      ManySound(p, e, b, n - 1);
      var (vs, r) := (GetMany(p, b, n - 1).val, GetMany(p, b, n - 1).rest);
      var (v, r') := (p(n - 1, r).val, p(n - 1, r).rest);
      PutManyAdd(e, vs, v);
      assert PutMany(e, vs) + (e(v) + r') == (PutMany(e, vs) + e(v)) + r';
    }
  }

  // Every item read has a property its reader guarantees.
  lemma {:induction false} ManyEach<T>(p: (nat, Text) -> Parsed<T>, q: (nat, T) -> bool, b: Text, n: nat)
    requires forall i: nat, x: Text :: i < n && p(i, x).Got? ==> q(i, p(i, x).val)
    ensures GetMany(p, b, n).Got? ==> |GetMany(p, b, n).val| == n
    ensures GetMany(p, b, n).Got? ==> forall i: nat :: i < n ==> q(i, GetMany(p, b, n).val[i])
  {
    if n == 0 {
    } else {
      ManyEach(p, q, b, n - 1);
    }
  }

  lemma {:induction false} ManyLength<T>(p: (nat, Text) -> Parsed<T>, b: Text, n: nat)
    ensures GetMany(p, b, n).Got? ==> |GetMany(p, b, n).val| == n
  {
    if n == 0 {
    } else {
      ManyLength(p, b, n - 1);
    }
  }

  // A list that fails early fails.
  lemma {:induction false} ManyFails<T>(p: (nat, Text) -> Parsed<T>, b: Text, i: nat, n: nat)
    requires i <= n && GetMany(p, b, i).Fail?
    ensures GetMany(p, b, n).Fail?
  {
    if i == n {
    } else {
      ManyFails(p, b, i, n - 1);
    }
  }
}
