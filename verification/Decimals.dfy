/** Decimal numerals as the repository prints and reads them. */
module Decimals {

  predicate IsDigit(c: char) { '0' <= c <= '9' }

  predicate AllDigits(s: string) { forall i :: 0 <= i < |s| ==> IsDigit(s[i]) }

  function DigitChar(d: nat): (c: char)
    requires d < 10
    ensures IsDigit(c) && c as int - '0' as int == d
  {
    '0' + d as char
  }

  function Numeral(n: nat): string {
    if n < 10 then [DigitChar(n)] else Numeral(n / 10) + [DigitChar(n % 10)]
  }

  /** The format {n:03d}. */
  function Pad3(n: nat): string {
    if n < 10 then "00" + Numeral(n) else if n < 100 then "0" + Numeral(n) else Numeral(n)
  }

  /** int(s) for a string of digits. */
  function Value(s: string): nat
    requires AllDigits(s)
  {
    if s == "" then 0 else 10 * Value(s[..|s| - 1]) + (s[|s| - 1] as int - '0' as int)
  }

  lemma {:induction false} NumeralDigits(n: nat)
    ensures AllDigits(Numeral(n)) && Value(Numeral(n)) == n
    ensures |Numeral(n)| == if n < 10 then 1 else |Numeral(n / 10)| + 1
  {
    if n < 10 {
      assert Value([DigitChar(n)]) == 10 * Value([DigitChar(n)][..0]) + n;
    } else {
      NumeralDigits(n / 10);
      var s := Numeral(n);
      assert s[..|s| - 1] == Numeral(n / 10);
    }
  }

  lemma {:induction false} LeadingZero(s: string)
    requires AllDigits(s)
    ensures AllDigits("0" + s) && Value("0" + s) == Value(s)
  {
    var t := "0" + s;
    if s == "" {
      assert t[..0] == "";
    } else {
      assert t[..|t| - 1] == "0" + s[..|s| - 1];
      LeadingZero(s[..|s| - 1]);
    }
  }

  /** Padding keeps the value, so padded numerals of different numbers differ. */
  lemma Pad3Value(n: nat)
    ensures AllDigits(Pad3(n)) && Value(Pad3(n)) == n
  {
    NumeralDigits(n);
    LeadingZero(Numeral(n));
    if n < 10 {
      LeadingZero("0" + Numeral(n));
      assert "0" + ("0" + Numeral(n)) == "00" + Numeral(n);
    }
  }

  /** Three characters, up to 999 and not beyond. */
  lemma Pad3Length(n: nat)
    ensures |Pad3(n)| == 3 <==> n <= 999
    ensures |Pad3(n)| >= 3
  {
    NumeralDigits(n);
    if n >= 10 { NumeralDigits(n / 10); }
    if n >= 100 { NumeralDigits(n / 100); assert n / 10 / 10 == n / 100; }
    if n >= 1000 { NumeralDigits(n / 1000); assert n / 100 / 10 == n / 1000; }
  }
}
