/** String helpers shared by both scripts: prefix and suffix tests, the ASCII
    reading of the regular-expression classes `\d` and `\w`, and the order in
    which Python's `sorted` arranges file names (code point by code point). */
module Strings {

  predicate StartsWith(s: string, prefix: string) {
    |prefix| <= |s| && s[..|prefix|] == prefix
  }

  predicate EndsWith(s: string, suffix: string) {
    |suffix| <= |s| && s[|s| - |suffix|..] == suffix
  }

  /** `\d`, restricted to ASCII */
  predicate IsDigit(c: char) {
    '0' <= c <= '9'
  }

  /** `\w`, restricted to ASCII */
  predicate IsWordChar(c: char) {
    IsDigit(c) || 'a' <= c <= 'z' || 'A' <= c <= 'Z' || c == '_'
  }

  predicate AllDigits(s: string) {
    forall i :: 0 <= i < |s| ==> IsDigit(s[i])
  }

  predicate AllWordChars(s: string) {
    forall i :: 0 <= i < |s| ==> IsWordChar(s[i])
  }

  /** Python's `a <= b` on `str`: lexicographic, comparing code points, a
      proper prefix coming first. */
  predicate NameLe(a: string, b: string) {
    |a| == 0 || (|b| > 0 && (a[0] < b[0] || (a[0] == b[0] && NameLe(a[1..], b[1..]))))
  }

  lemma {:induction false} NameLeTotal(a: string, b: string)
    ensures NameLe(a, b) || NameLe(b, a)
  {
    if |a| > 0 && |b| > 0 && a[0] == b[0] {
      NameLeTotal(a[1..], b[1..]);
    }
  }

  lemma {:induction false} NameLeTransitive(a: string, b: string, c: string)
    requires NameLe(a, b) && NameLe(b, c)
    ensures NameLe(a, c)
  {
    if |a| > 0 && a[0] == b[0] && b[0] == c[0] {
      NameLeTransitive(a[1..], b[1..], c[1..]);
    }
  }

  lemma {:induction false} NameLeAntisymmetric(a: string, b: string)
    requires NameLe(a, b) && NameLe(b, a)
    ensures a == b
  {
    if |a| > 0 {
      NameLeAntisymmetric(a[1..], b[1..]);
      assert a == [a[0]] + a[1..] && b == [b[0]] + b[1..];
    }
  }
}
