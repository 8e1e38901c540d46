/**
 * The character classes of <ctype.h> that the reader uses, in the C
 * locale, and the decimal reading of a digit string that `atoi` performs.
 */
module Chars {

  predicate IsDigit(c: char)
  {
    '0' <= c <= '9'
  }

  /** `isalnum` in the C locale: ASCII letters and digits. */
  predicate IsAlnum(c: char)
  {
    IsDigit(c) || 'a' <= c <= 'z' || 'A' <= c <= 'Z'
  }

  /** The two whitespace characters the tokenizer skips. */
  predicate IsSpace(c: char)
  {
    c == ' ' || c == '\n'
  }

  predicate AllDigits(s: string)
  {
    forall k :: 0 <= k < |s| ==> IsDigit(s[k])
  }

  predicate AllAlnum(s: string)
  {
    forall k :: 0 <= k < |s| ==> IsAlnum(s[k])
  }

  function DigitValue(c: char): nat
    requires IsDigit(c)
  {
    c as int - '0' as int
  }

  /** The number a string of decimal digits denotes, most significant digit first. */
  function DecimalValue(s: string): nat
    requires AllDigits(s)
    decreases |s|
  {
    if s == [] then 0 else DecimalValue(s[..|s| - 1]) * 10 + DigitValue(s[|s| - 1])
  }

  /** The length of the run of digits at the front of `s`. */
  function DigitRun(s: string): (n: nat)
    ensures n <= |s|
    ensures AllDigits(s[..n])
    ensures n < |s| ==> !IsDigit(s[n])
  {
    if s == [] || !IsDigit(s[0]) then 0
    else 1 + DigitRun(s[1..])
  }

  /** `s[..k]` is the whole run of digits at the front of `s`: where `atoi` stops. */
  predicate LeadingDigits(s: string, k: nat)
  {
    k <= |s| && AllDigits(s[..k]) && (k == |s| || !IsDigit(s[k]))
  }

  /** The run of leading digits is unique, and `DigitRun` measures it. */
  lemma LeadingDigitsUnique(s: string, n: nat)
    requires n == DigitRun(s)
    ensures LeadingDigits(s, n)
    ensures forall k: nat :: LeadingDigits(s, k) ==> k == n
  {
    forall k: nat | LeadingDigits(s, k)
      ensures k == n
    {
      assert forall i :: 0 <= i < k ==> s[..k][i] == s[i];
      assert forall i :: 0 <= i < n ==> s[..n][i] == s[i];
    }
  }
}
