/** Decimal digits: what strconv.Itoa, big.Int.String and the %0wd verbs print, and reading it back. */
module Decimal {
  import opened Prelude

  function Pow10(n: nat): (p: nat)
    ensures p > 0
  {
    if n == 0 then 1 else 10 * Pow10(n - 1)
  }

  predicate IsDigit(c: char) { '0' <= c <= '9' }

  predicate AllDigits(s: string) { forall i :: 0 <= i < |s| ==> IsDigit(s[i]) }

  function DigitOf(n: nat): char
    requires n < 10
  {
    '0' + n as char
  }

  function Digits(n: nat): (s: string)
    ensures s != [] && AllDigits(s)
  {
    if n < 10 then [DigitOf(n)] else Digits(n / 10) + [DigitOf(n % 10)]
  }

  function Value(s: string): nat
    requires AllDigits(s)
  {
    if s == [] then 0 else 10 * Value(s[..|s| - 1]) + (s[|s| - 1] - '0') as nat
  }

  lemma {:induction false} ValueOfDigits(n: nat)
    ensures Value(Digits(n)) == n
  {
    if n >= 10 {
      var s := Digits(n / 10) + [DigitOf(n % 10)];
      ValueOfDigits(n / 10);
      assert s[..|s| - 1] == Digits(n / 10);
    } else {
      assert [DigitOf(n)][..0] == [];
    }
  }

  lemma DigitsInjective(a: nat, b: nat)
    requires Digits(a) == Digits(b)
    ensures a == b
  {
    ValueOfDigits(a);
    ValueOfDigits(b);
  }

  lemma {:induction false} ValueOfSum(s: string, t: string)
    requires AllDigits(s) && AllDigits(t)
    ensures AllDigits(s + t) && Value(s + t) == Value(s) * Pow10(|t|) + Value(t)
    decreases |t|
  {
    if t == [] {
      assert s + t == s;
    } else {
      var t' := t[..|t| - 1];
      ValueOfSum(s, t');
      assert (s + t)[..|s + t| - 1] == s + t';
      assert Value(s) * Pow10(|t|) == 10 * (Value(s) * Pow10(|t'|));
    }
  }

  function Zeros(n: nat): (s: string)
    ensures |s| == n && AllDigits(s)
  {
    if n == 0 then [] else Zeros(n - 1) + ['0']
  }

  lemma {:induction false} ValueOfZeros(n: nat)
    ensures Value(Zeros(n)) == 0
  {
    if n > 0 {
      ValueOfZeros(n - 1);
      assert Zeros(n)[..n - 1] == Zeros(n - 1);
    }
  }

  lemma LeadingZeros(n: nat, s: string)
    requires AllDigits(s)
    ensures AllDigits(Zeros(n) + s) && Value(Zeros(n) + s) == Value(s)
  {
    ValueOfSum(Zeros(n), s);
    ValueOfZeros(n);
  }

  lemma {:induction false} DigitsAreFew(n: nat, w: nat)
    requires n < Pow10(w) && w > 0
    ensures |Digits(n)| <= w
  {
    if n >= 10 {
      DigitsAreFew(n / 10, w - 1);
    }
  }

  lemma {:induction false} DigitsAreFewerThan(n: nat)
    ensures |Digits(n)| <= n + 1
  {
    if n >= 10 {
      DigitsAreFewerThan(n / 10);
    }
  }

  // strconv.Itoa and big.Int.String
  function IntText(n: int): string { if n < 0 then "-" + Digits(-n) else Digits(n) }

  // %0wd of a number that is not negative
  function Padded(n: nat, w: nat): (s: string)
    ensures AllDigits(s)
  {
    var d := Digits(n);
    if |d| < w then Zeros(w - |d|) + d else d
  }

  lemma PaddedValue(n: nat, w: nat)
    requires n < Pow10(w) && w > 0
    ensures |Padded(n, w)| == w && Value(Padded(n, w)) == n
  {
    DigitsAreFew(n, w);
    ValueOfDigits(n);
    LeadingZeros(w - |Digits(n)|, Digits(n));
  }
}
