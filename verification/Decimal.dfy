/**
 Decimal rendering of natural numbers, as used in item ids: plain (`{n}`) and padded to at least two
 digits (`{n:02d}`), with the reading direction that makes both renderings injective.
 */
module Decimal {

  predicate IsDigit(c: char) { '0' <= c <= '9' }

  function DigitChar(d: nat): char
    requires d < 10
  {
    ['0', '1', '2', '3', '4', '5', '6', '7', '8', '9'][d]
  }

  function DigitValue(c: char): nat
    requires IsDigit(c)
  {
    c as int - '0' as int
  }

  /** `str(n)` */
  function Digits(n: nat): string {
    if n < 10 then [DigitChar(n)] else Digits(n / 10) + [DigitChar(n % 10)]
  }

  /** `f"{n:02d}"`: one leading zero below ten, unpadded from three digits on. */
  function Pad2(n: nat): string {
    if n < 10 then "0" + Digits(n) else Digits(n)
  }

  predicate AllDigits(s: string) {
    forall i :: 0 <= i < |s| ==> IsDigit(s[i])
  }

  /** `int(s)` on a run of digits. */
  function Value(s: string): nat
    requires AllDigits(s)
  {
    if s == [] then 0 else 10 * Value(s[..|s| - 1]) + DigitValue(s[|s| - 1])
  }

  lemma DigitRoundTrip(d: nat)
    requires d < 10
    ensures IsDigit(DigitChar(d)) && DigitValue(DigitChar(d)) == d
  {}

  lemma {:induction false} DigitsRoundTrip(n: nat)
    ensures AllDigits(Digits(n)) && Digits(n) != [] && Value(Digits(n)) == n
  {
    if n < 10 {
      DigitRoundTrip(n);
      assert Digits(n)[..0] == [];
    } else {
      DigitsRoundTrip(n / 10);
      DigitRoundTrip(n % 10);
      var s := Digits(n);
      assert s[..|s| - 1] == Digits(n / 10) && s[|s| - 1] == DigitChar(n % 10);
    }
  }

  /** No zeros in front. */
  lemma {:induction false} DigitsPlain(n: nat)
    ensures n > 0 ==> Digits(n)[0] != '0'
    ensures Digits(0) == "0"
  {
    if n >= 10 {
      DigitsPlain(n / 10);
      DigitsRoundTrip(n / 10);
    }
  }

  lemma {:induction false} LeadingZero(s: string)
    requires AllDigits(s)
    ensures AllDigits("0" + s) && Value("0" + s) == Value(s)
  {
    var t := "0" + s;
    if s == [] {
      assert t == ['0'] && t[..0] == [];
    } else {
      LeadingZero(s[..|s| - 1]);
      assert t[..|t| - 1] == "0" + s[..|s| - 1] && t[|t| - 1] == s[|s| - 1];
    }
  }

  lemma Pad2RoundTrip(n: nat)
    ensures AllDigits(Pad2(n)) && Pad2(n) != [] && Value(Pad2(n)) == n
  {
    DigitsRoundTrip(n);
    LeadingZero(Digits(n));
  }

  /** Two renderings joined by a character that is no digit can be taken apart again. */
  lemma SplitAtMark(a: string, b: string, c: string, d: string, mark: char)
    requires AllDigits(a) && AllDigits(c) && !IsDigit(mark)
    requires a + [mark] + b == c + [mark] + d
    ensures a == c && b == d
  {
    var left, right := a + [mark] + b, c + [mark] + d;
    assert left[|a|] == mark && right[|c|] == mark;
    assert |a| == |c|;
    assert left[..|a|] == a && right[..|c|] == c;
    assert left[|a| + 1..] == b && right[|c| + 1..] == d;
  }
}
