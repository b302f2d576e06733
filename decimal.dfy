/** Decimal text and numbers: `int(s)` on a run of ASCII digits, `str(n)`
    and the `:02d` format of a non-negative counter. */
module Decimal {
  import opened Strings

  function DigitChar(d: nat): (c: char)
    requires d < 10
    ensures IsDigit(c)
  {
    ('0' as int + d) as char
  }

  function DigitValue(c: char): (d: nat)
    requires IsDigit(c)
    ensures d < 10
  {
    c as int - '0' as int
  }

  /** `int(s)` for a string of ASCII digits, leading zeros allowed; the
      empty string reads as 0. */
  function Value(s: string): nat
    requires AllDigits(s)
  {
    if s == [] then 0 else Value(s[..|s| - 1]) * 10 + DigitValue(s[|s| - 1])
  }

  /** `str(n)`: no leading zero, except for 0 itself. */
  function Text(n: nat): (r: string)
    ensures AllDigits(r) && |r| > 0
  {
    if n < 10 then [DigitChar(n)] else Text(n / 10) + [DigitChar(n % 10)]
  }

  /** `str(n)` has no leading zero except for 0 itself, and is one digit
      exactly below 10: with `ValueText` this leaves one text for each
      number. */
  lemma {:induction false} TextCanonical(n: nat)
    ensures Text(n)[0] == '0' <==> n == 0
    ensures n < 10 <==> |Text(n)| == 1
  {
    if n >= 10 {
      TextCanonical(n / 10);
    }
  }

  /** `f"{n:02d}"`: at least two digits, padded with a leading zero. */
  function Pad2(n: nat): (r: string)
    ensures AllDigits(r) && |r| >= 2
  {
    if n < 10 then "0" + Text(n) else Text(n)
  }

  /** Reading back what `str` wrote gives the number. */
  lemma {:induction false} ValueText(n: nat)
    ensures Value(Text(n)) == n
  {
    if n >= 10 {
      var t := Text(n);
      ValueText(n / 10);
      assert t[..|t| - 1] == Text(n / 10);
    }
  }

  /** A leading zero does not change the value. */
  lemma {:induction false} ValueLeadingZero(s: string)
    requires AllDigits(s)
    ensures AllDigits("0" + s) && Value("0" + s) == Value(s)
  {
    if s != [] {
      var init := s[..|s| - 1];
      ValueLeadingZero(init);
      assert ("0" + s)[..|"0" + s| - 1] == "0" + init;
    }
  }

  /** Reading back what `:02d` wrote gives the number. */
  lemma ValuePad2(n: nat)
    ensures Value(Pad2(n)) == n
  {
    ValueText(n);
    if n < 10 {
      ValueLeadingZero(Text(n));
    }
  }

  /** `:02d` pads to exactly two digits and never adds a zero beyond that:
      with `ValuePad2` this leaves one text for each counter. */
  lemma Pad2Canonical(n: nat)
    ensures n < 100 ==> |Pad2(n)| == 2
    ensures |Pad2(n)| > 2 ==> Pad2(n)[0] != '0'
  {
    TextCanonical(n);
    if 10 <= n < 100 {
      TextCanonical(n / 10);
    }
  }

  /** Below 100, `:02d` is exactly the tens digit followed by the units
      digit. */
  lemma Pad2Digits(n: nat)
    requires n < 100
    ensures Pad2(n) == [DigitChar(n / 10), DigitChar(n % 10)]
  {
    if n >= 10 {
      assert Text(n / 10) == [DigitChar(n / 10)];
    }
  }

  /** Different counters are formatted differently. */
  lemma Pad2Injective(m: nat, n: nat)
    ensures Pad2(m) == Pad2(n) ==> m == n
  {
    ValuePad2(m);
    ValuePad2(n);
  }
}
