// strconv.FormatInt and strconv.ParseInt in base 10 on 64-bit integers: the two
// spellings boundaries of an integer dimension.
module Decimal {
  type byte = b: int | 0 <= b < 256
  type Text = seq<byte>

  const MIN64: int := -0x8000_0000_0000_0000
  const MAX64: int := 0x7fff_ffff_ffff_ffff

  predicate Int64(n: int) { MIN64 <= n <= MAX64 }

  datatype Option<+T> = None | Some(value: T)

  const PLUS: byte := 43
  const MINUS: byte := 45

  predicate IsDigit(c: byte) { 48 <= c <= 57 }

  // The value of a digit string; None on an empty string or a non-digit.
  function ParseDigits(s: Text): Option<nat> {
    if |s| == 0 || !IsDigit(s[|s| - 1]) then None
    else if |s| == 1 then Some(s[0] - 48)
    else
      match ParseDigits(s[..|s| - 1])
      case None => None
      case Some(n) => Some(10 * n + (s[|s| - 1] - 48))
  }

  // ParseInt(s, 10, 64): optional sign, at least one digit, in range.
  function ParseInt(s: Text): Option<int> {
    if |s| == 0 then None
    else
      var signed := s[0] == PLUS || s[0] == MINUS;
      match ParseDigits(if signed then s[1..] else s)
      case None => None
      case Some(n) =>
        var m: int := n;
        var v := if s[0] == MINUS then -m else m;
        if Int64(v) then Some(v) else None
  }

  function Digits(n: nat): Text {
    if n < 10 then [48 + n] else Digits(n / 10) + [48 + n % 10]
  }

  function FormatInt(n: int): Text {
    if n < 0 then [MINUS] + Digits(-n) else Digits(n)
  }

  lemma {:induction false} ParseOfDigits(n: nat)
    ensures |Digits(n)| > 0 && IsDigit(Digits(n)[0])
    ensures ParseDigits(Digits(n)) == Some(n)
  {
    if n < 10 {
    } else {
      ParseOfDigits(n / 10);
      var d := Digits(n);
      assert d[..|d| - 1] == Digits(n / 10);
    }
  }

  // Printing and parsing back is the identity on every int64.
  lemma ParseOfFormat(n: int)
    requires Int64(n)
    ensures ParseInt(FormatInt(n)) == Some(n)
  {
    ParseOfDigits(if n < 0 then -n else n);
    if n < 0 {
      assert FormatInt(n)[1..] == Digits(-n);
    }
  }

  // Parsed values are always in range, so a spelling has one canonical form.
  lemma CanonicalSpelling(s: Text)
    requires ParseInt(s).Some?
    ensures ParseInt(FormatInt(ParseInt(s).value)) == ParseInt(s)
  {
    ParseOfFormat(ParseInt(s).value);
  }

  // ---- What a spelling denotes, digit by digit ----

  function Pow10(k: nat): nat {
    if k == 0 then 1 else 10 * Pow10(k - 1)
  }

  // Each digit weighs ten to the number of digits behind it.
  ghost function Positional(s: Text): int {
    if |s| == 0 then 0 else (s[0] - 48) * Pow10(|s| - 1) + Positional(s[1..])
  }

  // What follows the sign, if there is one.
  ghost function Unsigned(s: Text): Text {
    if |s| > 0 && (s[0] == 43 || s[0] == 45) then s[1..] else s
  }

  // One sign at most, then digits only, and at least one.
  ghost predicate Numeral(s: Text) {
    |Unsigned(s)| > 0 && forall i :: 0 <= i < |Unsigned(s)| ==> 48 <= Unsigned(s)[i] <= 57
  }

  ghost function Denoted(s: Text): int {
    if |s| > 0 && s[0] == 45 then -Positional(Unsigned(s)) else Positional(Unsigned(s))
  }

  // A numeral a 64-bit integer can hold.
  ghost predicate Numeral64(s: Text) {
    Numeral(s) && -0x8000_0000_0000_0000 <= Denoted(s) <= 0x7fff_ffff_ffff_ffff
  }

  // No plus sign, and no leading zero except in 0 itself.
  ghost predicate Plain(s: Text) {
    Numeral(s) && s[0] != 43 && (Unsigned(s)[0] == 48 ==> s == [48])
  }

  lemma {:induction false} PositionalSnoc(s: Text, c: byte)
    ensures Positional(s + [c]) == 10 * Positional(s) + (c - 48)
  {
    if |s| == 0 {
      assert s + [c] == [c];
      assert Pow10(0) == 1;
    } else {
      PositionalSnoc(s[1..], c);
      assert (s + [c])[1..] == s[1..] + [c];
      var x: int := s[0] as int - 48;
      var p := Pow10(|s| - 1);
      assert Pow10(|s|) == 10 * p;
      assert x * (10 * p) == 10 * (x * p);
    }
  }

  lemma {:induction false} DigitsMean(s: Text)
    ensures ParseDigits(s).Some? <==> |s| > 0 && forall i :: 0 <= i < |s| ==> 48 <= s[i] <= 57
    ensures ParseDigits(s).Some? ==> ParseDigits(s).value == Positional(s)
  {
    if |s| == 0 {
    } else {
      var (init, c) := (s[..|s| - 1], s[|s| - 1]);
      assert s == init + [c];
      DigitsMean(init);
      PositionalSnoc(init, c);
      assert (forall i :: 0 <= i < |init| ==> 48 <= s[i] <= 57) ==> forall i :: 0 <= i < |init| ==> 48 <= init[i] <= 57;
    }
  }

  // An integer dimension accepts exactly the numerals of 64-bit integers, signed or not,
  // leading zeros or not, and takes each for what its digits say.
  lemma ParseMeans(s: Text)
    ensures ParseInt(s).Some? <==> Numeral64(s)
    ensures ParseInt(s).Some? ==> ParseInt(s).value == Denoted(s)
  {
    hide ParseDigits, Positional;
    DigitsMean(Unsigned(s));
  }

  // ---- The one plain spelling ----

  lemma {:induction false} DigitsShortest(s: Text)
    requires ParseDigits(s).Some?
    ensures |Digits(ParseDigits(s).value)| <= |s|
    ensures |Digits(ParseDigits(s).value)| == |s| ==> Digits(ParseDigits(s).value) == s
  {
    if |s| == 1 {
    } else {
      DigitsShortest(s[..|s| - 1]);
      assert s == s[..|s| - 1] + [s[|s| - 1]];
    }
  }

  lemma {:induction false} PlainDigits(s: Text)
    requires ParseDigits(s).Some? && (s[0] != 48 || |s| == 1)
    ensures Digits(ParseDigits(s).value) == s && (s[0] != 48 ==> ParseDigits(s).value > 0)
  {
    if |s| == 1 {
    } else {
      PlainDigits(s[..|s| - 1]);
      assert s == s[..|s| - 1] + [s[|s| - 1]];
    }
  }

  lemma {:induction false} DigitsPlain(n: nat)
    ensures |Digits(n)| > 0 && (Digits(n)[0] == 48 ==> n == 0)
  {
    if n < 10 {
    } else {
      DigitsPlain(n / 10);
    }
  }

  lemma ZeroDigit()
    ensures Digits(0) == [48]
  {
  }

  // An integer is printed as the plain numeral that denotes it; there is no other.
  lemma PrintedIsPlain(n: int, s: Text)
    ensures s == FormatInt(n) <==> Plain(s) && Denoted(s) == n
  {
    hide Digits, ParseDigits, Positional;
    var m: nat := if n < 0 then -n else n;
    var f := FormatInt(n);
    ParseOfDigits(m);
    DigitsPlain(m);
    DigitsMean(Digits(m));
    assert Unsigned(f) == Digits(m);
    assert Plain(f) && Denoted(f) == n by {
      ZeroDigit();
    }
    if Plain(s) && Denoted(s) == n {
      DigitsMean(Unsigned(s));
      PlainDigits(Unsigned(s));
    }
  }

  // No accepted spelling is shorter than the printed one, and none as short.
  lemma PrintedIsShortest(s: Text)
    requires Numeral(s)
    ensures |FormatInt(Denoted(s))| <= |s|
    ensures |FormatInt(Denoted(s))| == |s| ==> FormatInt(Denoted(s)) == s
  {
    hide Digits, ParseDigits, Positional;
    DigitsMean(Unsigned(s));
    DigitsShortest(Unsigned(s));
  }

  // Digits are at most 1 + log10, hence short: an int64 prints in at most 20 bytes.
  lemma {:induction false} DigitsShort(n: nat, k: nat)
    requires n < Pow10(k) && k > 0
    ensures |Digits(n)| <= k
    decreases k
  {
    if n < 10 {
    } else {
      DigitsShort(n / 10, k - 1);
    }
  }
}
