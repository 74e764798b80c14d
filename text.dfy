/**
 * Decimal text of integers: what Java's string concatenation prints for an `int`,
 * and what `Integer.parseInt` accepts.
 */
module Text {
  import opened Outcomes
  import opened JavaInt

  predicate IsDigitChar(c: char) {
    '0' <= c <= '9'
  }

  predicate AllDigits(s: string) {
    forall i :: 0 <= i < |s| ==> IsDigitChar(s[i])
  }

  function DigitChar(d: nat): (c: char)
    requires d < 10
    ensures IsDigitChar(c) && c as int - '0' as int == d
  {
    ('0' as int + d) as char
  }

  /** The decimal numeral of `n`, without leading zeros. */
  function NatToString(n: nat): (s: string)
    decreases n
  {
    if n < 10 then [DigitChar(n)] else NatToString(n / 10) + [DigitChar(n % 10)]
  }

  /** Java's `"" + i`: a minus sign for negative values, then the digits. */
  function IntToString(i: int): string {
    if i < 0 then "-" + NatToString(-i) else NatToString(i)
  }

  /** The value of a run of decimal digits, most significant first. */
  function DigitsValue(s: string): nat
    requires AllDigits(s)
  {
    if s == [] then 0 else DigitsValue(s[..|s| - 1]) * 10 + (s[|s| - 1] as int - '0' as int)
  }

  /** The text after an optional leading sign. */
  function Unsigned(s: string): (u: string)
    ensures |u| <= |s| && (|u| < |s| <==> |s| > 0 && (s[0] == '-' || s[0] == '+'))
  {
    if |s| > 0 && (s[0] == '-' || s[0] == '+') then s[1..] else s
  }

  /** An optional sign followed by at least one ASCII digit, and nothing else. */
  predicate IsNumeral(s: string) {
    |Unsigned(s)| > 0 && AllDigits(Unsigned(s))
  }

  /** The mathematical value of a numeral, negated when it starts with `-`. */
  function NumeralValue(s: string): int
    requires IsNumeral(s)
  {
    var magnitude: int := DigitsValue(Unsigned(s));
    if s[0] == '-' then -magnitude else magnitude
  }

  /**
   * `Integer.parseInt(s)` for a text of ASCII digits with an optional sign: the value,
   * or `NumberFormatException` when the text is empty, has no digits, contains a
   * non-digit, or denotes a number outside the `int` range.
   */
  function ParseInt(s: string): (r: Result<int32>)
    ensures r.Ok? <==> IsNumeral(s) && MIN <= NumeralValue(s) <= MAX
    ensures r.Ok? ==> r.value == NumeralValue(s)
    ensures r.Ok? && AllDigits(s) ==> r.value == DigitsValue(s)
    ensures r.Throws? ==> r.exception == NumberFormat
  {
    if |s| > 0 && (s[0] == '-' || s[0] == '+') then
      var body := s[1..];
      if |body| > 0 && AllDigits(body) then
        var magnitude: int := DigitsValue(body);
        var v: int := if s[0] == '-' then -magnitude else magnitude;
        if MIN <= v <= MAX then Ok(v) else Throws(NumberFormat)
      else Throws(NumberFormat)
    else if |s| > 0 && AllDigits(s) && DigitsValue(s) <= MAX then Ok(DigitsValue(s))
    else Throws(NumberFormat)
  }

  /** One past the largest `int` is refused, while the smallest `int` is accepted. */
  lemma {:induction false} ParseIntRange()
    ensures ParseInt("2147483648") == Throws(NumberFormat)
    ensures ParseInt("-2147483648") == Ok(MIN)
  {
    assert DigitsValue("2147483648") == 2147483648 by {
      assert "2147483648"[..9] == "214748364";
      assert "214748364"[..8] == "21474836";
      assert "21474836"[..7] == "2147483";
      assert "2147483"[..6] == "214748";
      assert "214748"[..5] == "21474";
      assert "21474"[..4] == "2147";
      assert "2147"[..3] == "214";
      assert "214"[..2] == "21";
      assert "21"[..1] == "2";
      assert "2"[..0] == "";
    }
    assert "-2147483648"[1..] == "2147483648";
  }

  lemma {:induction false} NatToStringDigits(n: nat)
    ensures |NatToString(n)| > 0 && AllDigits(NatToString(n))
    ensures DigitsValue(NatToString(n)) == n
    decreases n
  {
    if n >= 10 {
      NatToStringDigits(n / 10);
      var s := NatToString(n);
      assert s[..|s| - 1] == NatToString(n / 10);
    }
  }

  /** Printing a value as a numeral and parsing it back gives the value again. */
  lemma {:induction false} ParseIntOfIntToString(i: int32)
    ensures ParseInt(IntToString(i)) == Ok(i)
  {
    if i < 0 {
      NatToStringDigits(-(i as int));
      var s := IntToString(i);
      assert s[1..] == NatToString(-(i as int));
    } else {
      NatToStringDigits(i);
    }
  }

  /** The numeral of a non-negative value never starts with a sign. */
  lemma {:induction false} IntToStringSign(i: int)
    ensures |IntToString(i)| > 0
    ensures (IntToString(i)[0] == '-') <==> i < 0
  {
    if i < 0 {
      NatToStringDigits(-i);
    } else {
      NatToStringDigits(i);
    }
  }
}
