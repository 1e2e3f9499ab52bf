/**
  * Decimal numerals: Python's `int(...)` on a string of ASCII digits, `float(...)` on a
  * string of ASCII digits and dots, and `str(n)` of an integer.
  */
module Numerals {

  import opened Wrappers
  import opened Ascii

  predicate AllDigits(s: string) {
    forall i :: 0 <= i < |s| ==> IsDigit(s[i])
  }

  function DigitValue(c: char): nat
    requires IsDigit(c)
  {
    c as int - '0' as int
  }

  function DigitChar(d: nat): (c: char)
    requires d < 10
    ensures IsDigit(c) && DigitValue(c) == d
  {
    ('0' as int + d) as char
  }

  /** The number a string of decimal digits spells (most significant digit first). */
  function DigitsValue(s: string): nat
    requires AllDigits(s)
  {
    if s == [] then 0 else DigitsValue(s[..|s| - 1]) * 10 + DigitValue(s[|s| - 1])
  }

  /** `int(s)` for a string of ASCII digits; `None` where Python raises `ValueError`. */
  function ParseNat(s: string): (r: Option<nat>)
    ensures r.Some? <==> s != [] && AllDigits(s)
  {
    if s != [] && AllDigits(s) then Some(DigitsValue(s)) else None
  }

  /** `str(n)` of a natural number. */
  function NatStr(n: nat): (s: string)
    ensures s != [] && AllDigits(s)
    decreases n
  {
    if n < 10 then [DigitChar(n)] else NatStr(n / 10) + [DigitChar(n % 10)]
  }

  /** `str(i)` of an integer. */
  function IntStr(i: int): string {
    if i < 0 then "-" + NatStr(-i) else NatStr(i)
  }

  lemma {:induction false} NatStrValue(n: nat)
    ensures DigitsValue(NatStr(n)) == n
    decreases n
  {
    if n >= 10 {
      var s := NatStr(n);
      assert s[..|s| - 1] == NatStr(n / 10);
      NatStrValue(n / 10);
    }
  }

  /** `int(str(n)) == n`. */
  lemma NatStrRoundTrip(n: nat)
    ensures ParseNat(NatStr(n)) == Some(n)
  {
    NatStrValue(n);
  }

  function Pow10(k: nat): (p: nat)
    ensures p >= 1
  {
    if k == 0 then 1 else 10 * Pow10(k - 1)
  }

  /** Index of the first `'.'` in `s`, or `|s|` when there is none. */
  function DotIndex(s: string): (k: nat)
    ensures k <= |s|
    ensures forall i :: 0 <= i < k ==> s[i] != '.'
    ensures k < |s| ==> s[k] == '.'
  {
    if s == [] || s[0] == '.' then 0 else 1 + DotIndex(s[1..])
  }

  predicate HasDigit(s: string) {
    exists i :: 0 <= i < |s| && IsDigit(s[i])
  }

  predicate AtMostOneDot(s: string) {
    forall i, j :: 0 <= i < j < |s| && s[i] == '.' ==> s[j] != '.'
  }

  predicate DigitsAndDots(s: string) {
    forall i :: 0 <= i < |s| ==> IsDigit(s[i]) || s[i] == '.'
  }

  /**
    * `float(s)` for a string of digits and dots: a value exactly when `s` holds at most one
    * dot and at least one digit (`"12"`, `"1.5"`, `".5"`, `"5."`); `None` where Python
    * raises `ValueError` (`""`, `"."`, `"1.2.3"`).
    */
  function ParseDecimal(s: string): (r: Option<real>)
    requires DigitsAndDots(s)
    ensures r.Some? <==> HasDigit(s) && AtMostOneDot(s)
    ensures r.Some? ==> r.value >= 0.0
  {
    var k := DotIndex(s);
    var whole := s[..k];
    if k == |s| then
      assert AllDigits(s);
      if s == [] then None else assert IsDigit(s[0]); Some(DigitsValue(s) as real)
    else
      var fraction := s[k + 1..];
      assert AllDigits(fraction) <==> AtMostOneDot(s) by {
        if !AllDigits(fraction) {
          var j :| 0 <= j < |fraction| && !IsDigit(fraction[j]);
          assert s[k] == '.' && s[k + 1 + j] == '.';
        }
      }
      if !AllDigits(fraction) then None
      else if whole == [] && fraction == [] then None
      else
        assert AllDigits(whole);
        assert whole != [] ==> IsDigit(s[0]);
        assert fraction != [] ==> IsDigit(s[k + 1]);
        Some(DigitsValue(whole) as real + DigitsValue(fraction) as real / Pow10(|fraction|) as real)
  }

  /** `float(str(n)) == n`. */
  lemma DecimalOfNatStr(n: nat)
    ensures DigitsAndDots(NatStr(n)) && ParseDecimal(NatStr(n)) == Some(n as real)
  {
    var s := NatStr(n);
    NatStrValue(n);
    assert forall i :: 0 <= i < |s| ==> s[i] != '.';
  }
}
