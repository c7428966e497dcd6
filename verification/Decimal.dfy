/** Decimal numerals as the Hedera codecs read and write them, and the string searching their
    grammars are made of.
 */
module Decimal {

  predicate IsDigit(c: char) {
    '0' <= c <= '9'
  }

  predicate AllDigits(s: string) {
    forall i :: 0 <= i < |s| ==> IsDigit(s[i])
  }

  /** No sign, no leading zero: 0 or [1-9][0-9]*. */
  predicate Canonical(s: string) {
    |s| >= 1 && AllDigits(s) && (|s| == 1 || s[0] != '0')
  }

  function DigitChar(d: nat): (c: char)
    requires d < 10
    ensures IsDigit(c) && c as int - '0' as int == d
  {
    '0' + d as char
  }

  function Value(s: string): nat
    requires AllDigits(s)
  {
    if s == [] then 0
    else Value(s[..|s| - 1]) * 10 + (s[|s| - 1] as int - '0' as int)
  }

  function Digits(n: nat): string {
    if n < 10 then [DigitChar(n)] else Digits(n / 10) + [DigitChar(n % 10)]
  }

  function Pow10(k: nat): (r: nat)
    ensures r >= 1
  {
    if k == 0 then 1 else 10 * Pow10(k - 1)
  }

  function Zeros(k: nat): string {
    seq(k, _ => '0')
  }

  /** The numeral padded on the left with zeros, as String(n).padStart(k, "0") gives it. */
  function PadStart(n: nat, k: nat): string {
    Zeros(if |Digits(n)| < k then k - |Digits(n)| else 0) + Digits(n)
  }

  lemma {:induction false} DigitsCanonical(n: nat)
    ensures Canonical(Digits(n)) && (n != 0 ==> Digits(n)[0] != '0')
  {
    if n >= 10 { DigitsCanonical(n / 10); }
  }

  lemma {:induction false} ValueDigits(n: nat)
    ensures AllDigits(Digits(n)) && Value(Digits(n)) == n
  {
    DigitsCanonical(n);
    if n >= 10 {
      ValueDigits(n / 10);
      assert Digits(n)[..|Digits(n)| - 1] == Digits(n / 10);
    } else {
      assert Digits(n)[..0] == [];
    }
  }

  /** Appending a digit multiplies by ten and adds it. */
  lemma LastDigit(front: nat, d: nat)
    requires d < 10
    ensures (front * 10 + d) / 10 == front && (front * 10 + d) % 10 == d
  {
  }

  lemma DigitsAppend(front: nat, c: char)
    requires front >= 1 && IsDigit(c)
    ensures Digits(front * 10 + (c as int - '0' as int)) == Digits(front) + [c]
  {
    LastDigit(front, c as int - '0' as int);
  }

  lemma ValueAppend(front: string, c: char)
    requires AllDigits(front) && IsDigit(c)
    ensures Value(front + [c]) == Value(front) * 10 + (c as int - '0' as int)
  {
    assert (front + [c])[..|front|] == front;
  }

  lemma OneDigit(c: char)
    requires IsDigit(c)
    ensures Value([c]) == c as int - '0' as int && Digits(Value([c])) == [c]
  {
    assert [c][..0] == [];
  }

  lemma {:induction false} DigitsValue(s: string)
    requires Canonical(s)
    ensures Digits(Value(s)) == s && (|s| > 1 ==> Value(s) >= Pow10(|s| - 1)) && (s[0] != '0' ==> Value(s) >= 1)
  {
    hide Digits, Value;
    var n := |s| - 1;
    var front, c := s[..n], s[n];
    assert s == front + [c];
    if n == 0 {
      OneDigit(c);
    } else {
      DigitsValue(front);
      ValueAppend(front, c);
      DigitsAppend(Value(front), c);
    }
  }

  /** Digits of any length are determined by their length and value. */
  lemma {:induction false} SameNumeral(a: string, b: string)
    requires AllDigits(a) && AllDigits(b) && |a| == |b| && Value(a) == Value(b)
    ensures a == b
  {
    if a != [] {
      var n := |a| - 1;
      SameNumeral(a[..n], b[..n]);
      assert a == a[..n] + [a[n]] && b == b[..n] + [b[n]];
    }
  }

  lemma {:induction false} ValueBound(s: string)
    requires AllDigits(s)
    ensures Value(s) < Pow10(|s|)
  {
    if s != [] { ValueBound(s[..|s| - 1]); }
  }

  lemma {:induction false} DigitsLength(n: nat, k: nat)
    requires n < Pow10(k) && k >= 1
    ensures |Digits(n)| <= k
  {
    if n >= 10 {
      assert Pow10(1) == 10;
      DigitsLength(n / 10, k - 1);
    }
  }

  lemma {:induction false} ValueZeros(k: nat, s: string)
    requires AllDigits(s)
    ensures AllDigits(Zeros(k) + s) && Value(Zeros(k) + s) == Value(s)
    decreases |s|, k
  {
    var z := Zeros(k) + s;
    if s != [] {
      ValueZeros(k, s[..|s| - 1]);
      assert z[..|z| - 1] == Zeros(k) + s[..|s| - 1];
    } else if k > 0 {
      ValueZeros(k - 1, s);
      assert z[..|z| - 1] == Zeros(k - 1) + s;
    }
  }

  /** Padding keeps the value and gives exactly k digits whenever the number has no more. */
  lemma Padded(n: nat, k: nat)
    requires n < Pow10(k) && k >= 1
    ensures |PadStart(n, k)| == k && AllDigits(PadStart(n, k)) && Value(PadStart(n, k)) == n
  {
    DigitsLength(n, k);
    ValueDigits(n);
    ValueZeros(if |Digits(n)| < k then k - |Digits(n)| else 0, Digits(n));
  }

  /** A numeral of exactly k digits is its own padding. */
  lemma PaddedValue(s: string)
    requires AllDigits(s) && |s| >= 1
    ensures PadStart(Value(s), |s|) == s
  {
    ValueBound(s);
    Padded(Value(s), |s|);
    SameNumeral(PadStart(Value(s), |s|), s);
  }

  // ----- searching

  /** The index of the first c, or the length. */
  function Find(s: string, c: char): (i: nat)
    ensures i <= |s| && (forall j :: 0 <= j < i ==> s[j] != c) && (i < |s| ==> s[i] == c)
  {
    if s == [] || s[0] == c then 0 else 1 + Find(s[1..], c)
  }

  predicate Free(s: string, c: char) {
    forall i :: 0 <= i < |s| ==> s[i] != c
  }

  datatype Parts = Whole | Parts(left: string, right: string)

  /** The string before and after its first c, or Whole if it has none. */
  function Cut(s: string, c: char): Parts {
    var i := Find(s, c);
    if i == |s| then Whole else Parts(s[..i], s[i + 1..])
  }

  function Joined(a: string, c: char, b: string): string {
    a + [c] + b
  }

  lemma CutIff(s: string, c: char, a: string, b: string)
    ensures Cut(s, c) == Parts(a, b) <==> Free(a, c) && s == Joined(a, c, b)
  {
    var i := Find(s, c);
    if Free(a, c) && s == Joined(a, c, b) {
      assert s[|a|] == c && forall j :: 0 <= j < |a| ==> s[j] == a[j];
      assert i == |a| && s[..i] == a && s[i + 1..] == b;
    } else if i < |s| {
      assert s == Joined(s[..i], c, s[i + 1..]);
    }
  }

  lemma CutNone(s: string, c: char)
    ensures Cut(s, c) == Whole <==> Free(s, c)
  {
  }

  lemma JoinedAppend(a: string, c: char, b: string, x: string)
    ensures Joined(a, c, b) + x == Joined(a, c, b + x)
  {
  }

  lemma FreeJoined(a: string, c: char, b: string, d: char)
    ensures Free(Joined(a, c, b), d) <==> Free(a, d) && c != d && Free(b, d)
  {
    var s := Joined(a, c, b);
    if Free(s, d) {
      assert c == s[|a|];
      assert forall i :: 0 <= i < |a| ==> a[i] == s[i];
      assert forall i :: 0 <= i < |b| ==> b[i] == s[i + |a| + 1];
    }
  }

  lemma DigitsFree(s: string, c: char)
    requires AllDigits(s) && !IsDigit(c)
    ensures Free(s, c)
  {
  }
}
