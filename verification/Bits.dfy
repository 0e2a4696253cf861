// Machine words as naturals. A 64-bit word is read through its binary digits, so
// that `|`, `<<` and single-bit tests keep their Go meaning without bit-vectors.
module Bits {
  const WORD: nat := 0x1_0000_0000_0000_0000

  function Pow2(n: nat): (p: nat)
    ensures p >= 1
  {
    if n == 0 then 1 else 2 * Pow2(n - 1)
  }

  // Bitwise or of two non-negative words.
  function Or(a: nat, b: nat): nat
    decreases a + b
  {
    if a == 0 then b
    else if b == 0 then a
    else 2 * Or(a / 2, b / 2) + (if a % 2 == 1 || b % 2 == 1 then 1 else 0)
  }

  // Binary digit k of a.
  predicate Bit(a: nat, k: nat) {
    if k == 0 then a % 2 == 1 else Bit(a / 2, k - 1)
  }

  // bits.Len: the number of binary digits of x.
  function BitLen(x: nat): nat {
    if x == 0 then 0 else 1 + BitLen(x / 2)
  }

  // x << s on a 64-bit word.
  function Shl(x: nat, s: nat): nat {
    x * Pow2(s) % WORD
  }

  lemma {:induction false} Pow2Add(m: nat, n: nat)
    ensures Pow2(m + n) == Pow2(m) * Pow2(n)
  {
    if m == 0 {
    } else {
      Pow2Add(m - 1, n);
      assert Pow2(m) * Pow2(n) == 2 * (Pow2(m - 1) * Pow2(n));
    }
  }

  lemma {:induction false} Pow2Mono(m: nat, n: nat)
    requires m <= n
    ensures Pow2(m) <= Pow2(n)
    decreases n
  {
    if m == n {
    } else {
      Pow2Mono(m, n - 1);
    }
  }

  lemma Pow2Bit()
    ensures Pow2(1) == 2
  {
  }

  lemma Pow2Word()
    ensures Pow2(64) == WORD
  {
    hide Pow2;
    Pow2Bit();
    Pow2Add(1, 1);
    Pow2Add(2, 2);
    Pow2Add(4, 4);
    Pow2Add(8, 8);
    Pow2Add(16, 16);
    Pow2Add(32, 32);
  }

  lemma {:induction false} BitLenBounds(x: nat)
    ensures x < Pow2(BitLen(x))
    ensures x > 0 ==> BitLen(x) > 0 && Pow2(BitLen(x) - 1) <= x
  {
    if x == 0 {
    } else {
      BitLenBounds(x / 2);
    }
  }

  // Words with disjoint digit ranges: or is addition.
  lemma {:induction false} OrIsSum(a: nat, b: nat, s: nat)
    requires a % Pow2(s) == 0 && b < Pow2(s)
    ensures Or(a, b) == a + b
    decreases s
  {
    if a == 0 || b == 0 {
    } else {
      assert s > 0;
      var q := a / Pow2(s);
      assert a == q * Pow2(s) == 2 * (q * Pow2(s - 1));
      MultipleMod(q, Pow2(s - 1));
      assert a / 2 == q * Pow2(s - 1);
      OrIsSum(a / 2, b / 2, s - 1);
    }
  }

  lemma MultipleMod(q: nat, m: nat)
    requires m > 0
    ensures (q * m) % m == 0
    ensures (q * m) / m == q
  {
    DivUnique(q * m, m, q, 0);
  }

  lemma MulAtLeast(a: int, m: int)
    requires a >= 1 && m > 0
    ensures a * m >= m
  {
  }

  lemma DivUnique(x: int, m: int, q: int, r: int)
    requires m > 0 && x == q * m + r && 0 <= r < m
    ensures x / m == q && x % m == r
  {
    var d := x / m - q;
    assert d * m == (x / m) * m - q * m;
    assert d * m == r - x % m;
    if d >= 1 {
      MulAtLeast(d, m);
    } else if d <= -1 {
      MulAtLeast(-d, m);
    }
  }

  lemma {:induction false} OrBits(a: nat, b: nat, k: nat)
    ensures Bit(Or(a, b), k) <==> Bit(a, k) || Bit(b, k)
    decreases a + b
  {
    if a == 0 {
      ZeroBits(k);
    } else if b == 0 {
      ZeroBits(k);
    } else {
      var o := Or(a / 2, b / 2);
      assert Or(a, b) / 2 == o;
      if k > 0 {
        OrBits(a / 2, b / 2, k - 1);
      }
    }
  }

  lemma {:induction false} ZeroBits(k: nat)
    ensures !Bit(0, k)
  {
    if k == 0 {
    } else {
      ZeroBits(k - 1);
    }
  }

  lemma {:induction false} Pow2Bits(j: nat, k: nat)
    ensures Bit(Pow2(j), k) <==> j == k
  {
    if j == 0 && k > 0 {
      ZeroBits(k - 1);
    } else if j > 0 && k > 0 {
      Pow2Bits(j - 1, k - 1);
    }
  }

  // ---- Products ----

  lemma MulMono(a: nat, b: nat, p: nat)
    requires a <= b
    ensures a * p <= b * p
  {
  }

  lemma MulAssoc(a: nat, b: nat, c: nat)
    ensures a * (b * c) == a * b * c
  {
  }

  lemma MulStep(a: nat, b: nat, p: nat, x: nat)
    requires a < b && x < p
    ensures a * p + x < b * p
  {
    assert (a + 1) * p <= b * p by { MulMono(a + 1, b, p); }
    assert (a + 1) * p == a * p + p;
  }
}

// Bitmaps over row numbers and dictionary ids: a slice of 64-bit words.
module Bitmap {
  import opened Bits

  function BitGet(b: seq<nat>, i: nat): bool {
    |b| > i / 64 && Bit(b[i / 64], i % 64)
  }

  function BitSet(b: seq<nat>, i: nat): (c: seq<nat>)
    requires i / 64 < |b|
    ensures |c| == |b|
    ensures forall j: nat :: BitGet(c, j) <==> j == i || BitGet(b, j)
  {
    var c := b[i / 64 := Or(b[i / 64], Shl(1, i % 64))];
    assert forall j: nat :: BitGet(c, j) <==> j == i || BitGet(b, j) by {
      forall j: nat ensures BitGet(c, j) <==> j == i || BitGet(b, j) {
        BitSetWord(b, i, j);
      }
    }
    c
  }

  lemma BitSetWord(b: seq<nat>, i: nat, j: nat)
    requires i / 64 < |b|
    ensures BitGet(b[i / 64 := Or(b[i / 64], Shl(1, i % 64))], j) <==> j == i || BitGet(b, j)
  {
    if j / 64 == i / 64 {
      Pow2Mono(i % 64 + 1, 64);
      Pow2Word();
      assert Shl(1, i % 64) == Pow2(i % 64);
      OrBits(b[i / 64], Pow2(i % 64), j % 64);
      Pow2Bits(i % 64, j % 64);
    }
  }

  // A fresh bitmap able to hold n bits: (n+63)/64 zero words.
  function Zeros(n: nat): (b: seq<nat>)
    ensures n <= 64 * |b|
    ensures forall i: nat :: !BitGet(b, i)
  {
    var b := seq((n + 63) / 64, (_: nat) => 0);
    assert forall i: nat :: !BitGet(b, i) by {
      forall i: nat ensures !BitGet(b, i) {
        ZeroBits(i % 64);
      }
    }
    b
  }
}
