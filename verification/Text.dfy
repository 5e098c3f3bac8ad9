/** Decimal numerals and the string operations the programs share. */
module Text {

  predicate IsDigit(c: char) {
    48 <= c as int <= 57
  }

  function Digit(d: nat): (c: char)
    requires d < 10
    ensures IsDigit(c) && c as int == 48 + d
  {
    (48 + d) as char
  }

  /** str(n) for a natural number. */
  function Numeral(n: nat): (s: string)
    ensures |s| > 0 && forall i :: 0 <= i < |s| ==> IsDigit(s[i])
  {
    if n < 10 then [Digit(n)] else Numeral(n / 10) + [Digit(n % 10)]
  }

  /** int(s) for a string of digits. */
  function NumeralValue(s: string): nat
    requires forall i :: 0 <= i < |s| ==> IsDigit(s[i])
  {
    if s == [] then 0
    else
      assert IsDigit(s[|s|-1]);
      10 * NumeralValue(s[..|s|-1]) + (s[|s|-1] as int - 48)
  }

  lemma {:induction false} NumeralRoundTrip(n: nat)
    ensures NumeralValue(Numeral(n)) == n
  {
    if n >= 10 {
      NumeralRoundTrip(n / 10);
      assert Numeral(n)[..|Numeral(n)|-1] == Numeral(n / 10);
    }
  }

  lemma NumeralInjective(m: nat, n: nat)
    requires Numeral(m) == Numeral(n)
    ensures m == n
  {
    NumeralRoundTrip(m);
    NumeralRoundTrip(n);
  }

  function Power10(k: nat): (p: nat)
    ensures p > 0
  {
    if k == 0 then 1 else 10 * Power10(k - 1)
  }

  lemma {:induction false} NumeralLength(n: nat, k: nat)
    requires k > 0 && n < Power10(k)
    ensures |Numeral(n)| <= k
  {
    if n >= 10 {
      NumeralLength(n / 10, k - 1);
    }
  }

  /** After a text and a separator, every character of a joined numeral is a digit. */
  lemma NumeralAfter(a: string, separator: char, n: nat)
    ensures var s := a + [separator] + Numeral(n);
      s[|a|] == separator && s[|a| + 1..] == Numeral(n) && forall i :: |a| < i < |s| ==> IsDigit(s[i])
  {
  }

  /** Two texts joined to numerals by a separator no numeral contains end in the same numeral. */
  lemma LastNumeralIsDetermined(a: string, m: nat, b: string, n: nat, separator: char)
    requires !IsDigit(separator) && a + [separator] + Numeral(m) == b + [separator] + Numeral(n)
    ensures m == n
  {
    NumeralAfter(a, separator, m);
    NumeralAfter(b, separator, n);
    NumeralInjective(m, n);
  }

  /** A numeral up to a separator, followed by anything, determines both. */
  lemma FirstNumeralIsDetermined(m: nat, a: string, n: nat, b: string, separator: char)
    requires !IsDigit(separator) && Numeral(m) + [separator] + a == Numeral(n) + [separator] + b
    ensures m == n && a == b
  {
    var x, y := Numeral(m), Numeral(n);
    var s := x + [separator] + a;
    assert s == y + [separator] + b;
    assert s[..|x|] == x && s[..|y|] == y && s[|x|] == separator && s[|y|] == separator;
    assert forall i :: 0 <= i < |x| ==> IsDigit(s[i]);
    assert forall i :: 0 <= i < |y| ==> IsDigit(s[i]);
    assert s[|x| + 1..] == a && s[|y| + 1..] == b;
    NumeralInjective(m, n);
  }
}
