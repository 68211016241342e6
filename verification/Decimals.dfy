/** Unsigned decimal text: its canonical form is in bijection with the naturals. */
module Decimals {

  predicate IsDigit(c: char) {
    '0' <= c <= '9'
  }

  predicate AllDigits(s: string) {
    forall i | 0 <= i < |s| :: IsDigit(s[i])
  }

  function DigitChar(d: nat): (c: char)
    requires d < 10
    ensures IsDigit(c)
  {
    '0' + d as char
  }

  function DigitValue(c: char): (d: nat)
    requires IsDigit(c)
    ensures d < 10 && DigitChar(d) == c
  {
    (c - '0') as nat
  }

  /** The text of a natural, without leading zeros. */
  function Dec(n: nat): (s: string)
    ensures s != "" && AllDigits(s)
  {
    if n < 10 then [DigitChar(n)] else Dec(n / 10) + [DigitChar(n % 10)]
  }

  /** The number a digit string denotes. */
  function Value(s: string): nat
    requires AllDigits(s)
  {
    if s == "" then 0 else Value(s[..|s| - 1]) * 10 + DigitValue(s[|s| - 1])
  }

  /** `canonicalUint`'s language: "0", or digits that do not start with zero. */
  predicate Canonical(s: string) {
    s != "" && AllDigits(s) && (s == "0" || s[0] != '0')
  }

  lemma {:induction false} ValueOfDec(n: nat)
    ensures Value(Dec(n)) == n
  {
    if n >= 10 {
      ValueOfDec(n / 10);
      var s := Dec(n);
      assert s[..|s| - 1] == Dec(n / 10);
    }
  }

  lemma {:induction false} DecIsCanonical(n: nat)
    ensures Canonical(Dec(n))
    ensures n > 0 ==> Dec(n)[0] != '0'
  {
    if n >= 10 {
      DecIsCanonical(n / 10);
      assert Dec(n)[0] == Dec(n / 10)[0];
    }
  }

  lemma {:induction false} DecOfValue(s: string)
    requires Canonical(s)
    ensures Dec(Value(s)) == s
    ensures s[0] != '0' ==> Value(s) > 0
  {
    if |s| > 1 {
      var front := s[..|s| - 1];
      DecOfValue(front);
      assert Value(s) / 10 == Value(front) && Value(s) % 10 == DigitValue(s[|s| - 1]);
      assert s == front + [s[|s| - 1]];
    } else {
      assert s[..0] == "";
    }
  }

  /** Canonical decimals and naturals correspond one to one. */
  lemma CanonicalIsDec(s: string)
    ensures Canonical(s) <==> exists n: nat :: s == Dec(n)
  {
    if Canonical(s) {
      DecOfValue(s);
    }
    forall n: nat | s == Dec(n)
      ensures Canonical(s)
    {
      DecIsCanonical(n);
    }
  }

  lemma DecInjective(m: nat, n: nat)
    requires Dec(m) == Dec(n)
    ensures m == n
  {
    ValueOfDec(m);
    ValueOfDec(n);
  }

  /** `canonicalUint`, scanning the text. */
  method CanonicalUint(value: string) returns (ok: bool)
    ensures ok <==> exists n: nat :: value == Dec(n)
  {
    CanonicalIsDec(value);
    if value == "0" { return true; }
    if value == "" || value[0] < '1' || value[0] > '9' { return false; }
    for i := 1 to |value|
      invariant forall k | 0 <= k < i :: IsDigit(value[k])
    {
      if value[i] < '0' || value[i] > '9' { return false; }
    }
    return true;
  }
}
