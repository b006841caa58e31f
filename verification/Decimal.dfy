/** Decimal text of natural numbers, as `std::to_string` prints it and `%d` reads it back. */
module Decimal {

  predicate IsDigit(c: char) {
    '0' <= c <= '9'
  }

  predicate AllDigits(s: string) {
    forall i :: 0 <= i < |s| ==> IsDigit(s[i])
  }

  function DigitChar(d: nat): char
    requires d < 10
  {
    '0' + d as char
  }

  function ToText(n: nat): string {
    if n < 10 then [DigitChar(n)] else ToText(n / 10) + [DigitChar(n % 10)]
  }

  function Value(s: string): nat
    requires AllDigits(s)
  {
    if s == [] then 0
    else 10 * Value(s[..|s| - 1]) + (s[|s| - 1] as int - '0' as int)
  }

  lemma {:induction false} TextIsDigits(n: nat)
    ensures ToText(n) != [] && AllDigits(ToText(n))
  {
    if n >= 10 {
      TextIsDigits(n / 10);
    }
  }

  /** Reading back the text of a number gives that number. */
  lemma {:induction false} ValueOfText(n: nat)
    ensures AllDigits(ToText(n)) && Value(ToText(n)) == n
  {
    TextIsDigits(n);
    var s := ToText(n);
    if n < 10 {
      assert s[..0] == [];
    } else {
      ValueOfText(n / 10);
      assert s[..|s| - 1] == ToText(n / 10);
    }
  }

  lemma TextInjective(m: nat, n: nat)
    requires ToText(m) == ToText(n)
    ensures m == n
  {
    ValueOfText(m);
    ValueOfText(n);
  }

  /** A separator that is no digit, followed by the text of a number, splits uniquely from the right. */
  lemma SplitFromRight(a: string, m: nat, b: string, n: nat, sep: char)
    requires !IsDigit(sep)
    requires a + [sep] + ToText(m) == b + [sep] + ToText(n)
    ensures a == b && m == n
  {
    var whole := a + [sep] + ToText(m);
    TextIsDigits(m);
    TextIsDigits(n);
    assert whole[|a|] == sep && whole[|b|] == sep;
    if |a| < |b| {
      assert false;
    } else if |b| < |a| {
      assert false;
    } else {
      assert a == whole[..|a|] == b;
      assert ToText(m) == whole[|a| + 1..] == ToText(n);
      TextInjective(m, n);
    }
  }
}
