/** Decimal digit strings: their value, and std::to_string of a natural number. */
module Decimal {

  predicate IsDigit(c: char) {
    '0' <= c <= '9'
  }

  predicate AllDigits(s: string) {
    forall k :: 0 <= k < |s| ==> IsDigit(s[k])
  }

  /** The value of a digit character; any other character counts as 0. */
  function DigitValue(c: char): (d: nat)
    ensures d < 10
  {
    if IsDigit(c) then (c as int) - ('0' as int) else 0
  }

  function DigitChar(d: nat): (c: char)
    requires d < 10
    ensures IsDigit(c) && DigitValue(c) == d
  {
    (('0' as int) + d) as char
  }

  /** The number the digits s[lo..hi] denote, most significant digit first. */
  function ValueOf(s: string, lo: nat, hi: nat): nat
    requires lo <= hi <= |s|
    decreases hi - lo
  {
    if lo == hi then 0 else 10 * ValueOf(s, lo, hi - 1) + DigitValue(s[hi - 1])
  }

  /** The value of the digits s[lo..hi] read after a decimal point, the first worth a tenth. */
  function FractionValue(s: string, lo: nat, hi: nat): (v: real)
    requires lo <= hi <= |s|
    ensures 0.0 <= v < 1.0
    decreases hi - lo
  {
    if lo == hi then 0.0 else (DigitValue(s[lo]) as real + FractionValue(s, lo + 1, hi)) / 10.0
  }

  /** The end of the maximal run of digits that starts at i and stays below hi. */
  function DigitsEnd(s: string, i: nat, hi: nat): (j: nat)
    requires i <= hi <= |s|
    ensures i <= j <= hi
    decreases hi - i
  {
    if i < hi && IsDigit(s[i]) then DigitsEnd(s, i + 1, hi) else i
  }

  /** The run holds only digits, and stops at hi or at a character that is no digit. */
  lemma {:induction false} DigitsEndStops(s: string, i: nat, hi: nat)
    requires i <= hi <= |s|
    ensures forall k :: i <= k < DigitsEnd(s, i, hi) ==> IsDigit(s[k])
    ensures DigitsEnd(s, i, hi) == hi || !IsDigit(s[DigitsEnd(s, i, hi)])
    decreases hi - i
  {
    if i < hi && IsDigit(s[i]) {
      DigitsEndStops(s, i + 1, hi);
    }
  }

  /** Over a range of digits the run reaches its end. */
  lemma {:induction false} DigitsEndOfDigits(s: string, i: nat, hi: nat)
    requires i <= hi <= |s|
    requires forall k :: i <= k < hi ==> IsDigit(s[k])
    ensures DigitsEnd(s, i, hi) == hi
    decreases hi - i
  {
    if i < hi {
      DigitsEndOfDigits(s, i + 1, hi);
    }
  }

  /** The value of digits depends on those characters alone, wherever they sit. */
  lemma {:induction false} ValueOfAgree(s: string, lo: nat, t: string, lo2: nat, n: nat)
    requires lo + n <= |s| && lo2 + n <= |t|
    requires s[lo..lo + n] == t[lo2..lo2 + n]
    ensures ValueOf(s, lo, lo + n) == ValueOf(t, lo2, lo2 + n)
    decreases n
  {
    if n > 0 {
      assert s[lo + n - 1] == s[lo..lo + n][n - 1] == t[lo2..lo2 + n][n - 1] == t[lo2 + n - 1];
      assert s[lo..lo + n - 1] == s[lo..lo + n][..n - 1];
      assert t[lo2..lo2 + n - 1] == t[lo2..lo2 + n][..n - 1];
      ValueOfAgree(s, lo, t, lo2, n - 1);
    }
  }

  /** std::to_string of a non-negative integer: its shortest decimal numeral. */
  function Render(n: nat): (s: string)
    ensures |s| > 0
  {
    if n < 10 then [DigitChar(n)] else Render(n / 10) + [DigitChar(n % 10)]
  }

  /** Render writes digits only, with no leading zero, and reading them back
      gives the number. */
  lemma {:induction false} ValueOfRender(n: nat)
    ensures AllDigits(Render(n)) && ValueOf(Render(n), 0, |Render(n)|) == n
    ensures Render(n)[0] == '0' ==> n == 0
  {
    if n >= 10 {
      var s := Render(n);
      var p := Render(n / 10);
      ValueOfRender(n / 10);
      assert s == p + [DigitChar(n % 10)];
      assert s[0..|p|] == p[0..|p|];
      ValueOfAgree(s, 0, p, 0, |p|);
      assert s[0] == p[0];
    }
  }
}
