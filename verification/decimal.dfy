/** Python's `str(n)` for a non-negative integer, and the parser that reads
    it back: used wherever a number goes out as plain text. */
module Decimal {

  predicate IsDigit(c: char)
  {
    '0' <= c <= '9'
  }

  predicate AllDigits(s: string)
  {
    forall i :: 0 <= i < |s| ==> IsDigit(s[i])
  }

  function DigitChar(d: nat): (c: char)
    requires d < 10
    ensures IsDigit(c)
  {
    (('0' as int) + d) as char
  }

  function DigitValue(c: char): (d: nat)
    requires IsDigit(c)
    ensures d < 10
  {
    (c as int) - ('0' as int)
  }

  /** The decimal text of `n`: digits only, and no leading zero unless `n` is zero. */
  function NatToString(n: nat): (s: string)
    ensures 0 < |s|
    ensures AllDigits(s)
    ensures s[0] == '0' <==> n == 0
    ensures s[0] == '0' ==> |s| == 1
  {
    if n < 10 then [DigitChar(n)] else NatToString(n / 10) + [DigitChar(n % 10)]
  }

  /** The value of a string of decimal digits, most significant first. */
  function ParseDecimal(s: string): nat
    requires AllDigits(s)
  {
    if s == [] then 0 else ParseDecimal(s[..|s| - 1]) * 10 + DigitValue(s[|s| - 1])
  }

  /** Reading back the decimal text of `n` gives `n`. */
  lemma {:induction false} ParseNatToString(n: nat)
    ensures ParseDecimal(NatToString(n)) == n
  {
    var s := NatToString(n);
    if n >= 10 {
      ParseNatToString(n / 10);
      assert s[..|s| - 1] == NatToString(n / 10);
    }
  }

  /** A digit string without a leading zero (other than "0" itself). */
  predicate Canonical(s: string)
  {
    && 0 < |s|
    && AllDigits(s)
    && (s[0] == '0' ==> |s| == 1)
  }

  /** Rendering the value of a canonical digit string gives the string back,
      so `NatToString` is the only canonical text of a number. */
  lemma {:induction false} NatToStringParse(s: string)
    requires Canonical(s)
    ensures NatToString(ParseDecimal(s)) == s
  {
    var d := DigitValue(s[|s| - 1]);
    assert DigitChar(d) == s[|s| - 1];
    if |s| > 1 {
      var pre := s[..|s| - 1];
      assert pre[0] == s[0];
      NatToStringParse(pre);
      var m := ParseDecimal(pre);
      var n := ParseDecimal(s);
      assert m != 0 by {
        assert NatToString(m)[0] == s[0];
      }
      assert n == m * 10 + d;
      assert n / 10 == m && n % 10 == d;
      assert pre + [s[|s| - 1]] == s;
    } else {
      assert ParseDecimal(s) == d by {
        assert s[..0] == [];
      }
      assert [s[0]] == s;
    }
  }

  /** Distinct numbers have distinct decimal texts. */
  lemma NatToStringInjective(a: nat, b: nat)
    ensures NatToString(a) == NatToString(b) ==> a == b
  {
    ParseNatToString(a);
    ParseNatToString(b);
  }
}
