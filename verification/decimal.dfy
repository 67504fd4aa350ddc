/** Decimal numerals as the program prints and pads them. */
module Decimal {

  function Digit(d: nat): char
    requires d < 10
  {
    "0123456789"[d]
  }

  function Digits(n: nat): string {
    if n < 10 then [Digit(n)] else Digits(n / 10) + [Digit(n % 10)]
  }

  /** padStart(6, "0"). */
  function PadSix(s: string): string
    decreases 6 - |s|
  {
    if |s| >= 6 then s else PadSix("0" + s)
  }

  predicate IsNumeral(s: string) {
    s != "" && forall i :: 0 <= i < |s| ==> '0' <= s[i] <= '9'
  }

  function Parse(s: string): nat
    requires IsNumeral(s)
  {
    var last := (s[|s| - 1] - '0') as nat;
    if |s| == 1 then last else 10 * Parse(s[..|s| - 1]) + last
  }

  lemma DigitParses(d: nat)
    requires d < 10
    ensures '0' <= Digit(d) <= '9' && (Digit(d) - '0') as nat == d
  {}

  lemma {:induction false} DigitsParse(n: nat)
    ensures IsNumeral(Digits(n)) && Parse(Digits(n)) == n
    decreases n
  {
    DigitParses(n % 10);
    if n >= 10 {
      DigitsParse(n / 10);
      assert Digits(n)[..|Digits(n)| - 1] == Digits(n / 10);
    }
  }

  /** Different numbers print differently. */
  lemma DigitsInjective(m: nat, n: nat)
    requires Digits(m) == Digits(n)
    ensures m == n
  {
    DigitsParse(m);
    DigitsParse(n);
  }

  lemma {:induction false} LeadingZeroParses(s: string)
    requires IsNumeral(s)
    ensures IsNumeral("0" + s) && Parse("0" + s) == Parse(s)
    decreases |s|
  {
    var z := "0" + s;
    assert z[..|z| - 1] == "0" + s[..|s| - 1];
    if |s| == 1 {
      assert z[..1] == "0";
    } else {
      LeadingZeroParses(s[..|s| - 1]);
    }
  }

  lemma {:induction false} PadParses(s: string)
    requires IsNumeral(s)
    ensures IsNumeral(PadSix(s)) && Parse(PadSix(s)) == Parse(s)
    decreases 6 - |s|
  {
    if |s| < 6 {
      LeadingZeroParses(s);
      PadParses("0" + s);
    }
  }

  /** Reading a padded numeral gives the number back, also when it has more than six digits. */
  lemma PaddedDigitsParse(n: nat)
    ensures IsNumeral(PadSix(Digits(n))) && Parse(PadSix(Digits(n))) == n
  {
    DigitsParse(n);
    PadParses(Digits(n));
  }

  lemma PaddedDigitsInjective(m: nat, n: nat)
    requires PadSix(Digits(m)) == PadSix(Digits(n))
    ensures m == n
  {
    PaddedDigitsParse(m);
    PaddedDigitsParse(n);
  }

  lemma SamePrefix(prefix: string, a: string, b: string)
    requires prefix + a == prefix + b
    ensures a == b
  {
    assert (prefix + a)[|prefix|..] == a && (prefix + b)[|prefix|..] == b;
  }

  /** Numerals have no leading zero, and padding brings them to six digits by leading zeros alone. */
  lemma {:induction false} NoLeadingZero(n: nat)
    ensures Digits(n) != "" && (n > 0 ==> Digits(n)[0] != '0')
    decreases n
  {
    if n >= 10 {
      NoLeadingZero(n / 10);
    }
  }

  lemma {:induction false} PadsToSix(s: string)
    ensures |PadSix(s)| == if |s| < 6 then 6 else |s|
    ensures PadSix(s)[|PadSix(s)| - |s|..] == s
    ensures forall i :: 0 <= i < |PadSix(s)| - |s| ==> PadSix(s)[i] == '0'
    decreases 6 - |s|
  {
    if |s| < 6 {
      var z := "0" + s;
      PadsToSix(z);
      var p := PadSix(z);
      assert p[|p| - |s|..] == p[|p| - |z|..][1..] == s;
      assert p[|p| - |z|] == p[|p| - |z|..][0] == '0';
    }
  }
}
