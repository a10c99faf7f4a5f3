/** Decimal rendering of whole numbers, as JavaScript's template strings print
    integers, and the "N BCE" / "N CE" era label used by the time axis and by
    the detail panel. */
module Calendar {

  import opened Types

  predicate IsDigit(c: char)
  {
    '0' <= c <= '9'
  }

  predicate AllDigits(s: string)
  {
    forall i :: 0 <= i < |s| ==> IsDigit(s[i])
  }

  function DigitChar(d: nat): (c: char)
    requires d < 10
    ensures IsDigit(c) && c as int - '0' as int == d
  {
    ('0' as int + d) as char
  }

  /** The decimal digits of n, most significant first, without leading zeros. */
  function NatToString(n: nat): (s: string)
    ensures |s| >= 1 && AllDigits(s)
    decreases n
  {
    if n < 10 then [DigitChar(n)] else NatToString(n / 10) + [DigitChar(n % 10)]
  }

  /** `${i}` for an integer: a minus sign before the digits of a negative number. */
  function IntToString(i: int): string
  {
    if i < 0 then "-" + NatToString(-i) else NatToString(i)
  }

  /** The value of a string of decimal digits. */
  function ParseNat(s: string): nat
    requires AllDigits(s)
    decreases |s|
  {
    if |s| == 0 then 0
    else ParseNat(s[..|s| - 1]) * 10 + (s[|s| - 1] as int - '0' as int)
  }

  lemma {:induction false} ParseNatToString(n: nat)
    ensures ParseNat(NatToString(n)) == n
    decreases n
  {
    if n >= 10 {
      var s := NatToString(n);
      assert s[..|s| - 1] == NatToString(n / 10);
      ParseNatToString(n / 10);
    }
  }

  /** The era label: `${Math.abs(y)} BCE` for a negative year, `${y} CE` otherwise. */
  function EraLabel(year: int): (s: string)
    ensures |s| >= 4 && IsDigit(s[0])
  {
    if year < 0 then NatToString(-year) + " BCE" else NatToString(year) + " CE"
  }

  /** Reads an era label back: digits followed by " BCE" (negated) or " CE". */
  function ParseEraLabel(s: string): Option<int>
  {
    if |s| >= 5 && s[|s| - 4..] == " BCE" && AllDigits(s[..|s| - 4]) then
      Some(-(ParseNat(s[..|s| - 4]) as int))
    else if |s| >= 4 && s[|s| - 3..] == " CE" && AllDigits(s[..|s| - 3]) then
      Some(ParseNat(s[..|s| - 3]))
    else None
  }

  /** The label determines the year: reading it back gives the same year. */
  lemma EraLabelRoundTrip(year: int)
    ensures ParseEraLabel(EraLabel(year)) == Some(year)
  {
    var s := EraLabel(year);
    if year < 0 {
      var d := NatToString(-year);
      assert s[|s| - 4..] == " BCE";
      assert s[..|s| - 4] == d;
      ParseNatToString(-year);
    } else {
      var d := NatToString(year);
      assert s[|s| - 3..] == " CE";
      assert s[..|s| - 3] == d;
      assert s[|s| - 4..][0] == d[|d| - 1];
      assert IsDigit(d[|d| - 1]);
      ParseNatToString(year);
    }
  }

  /** Distinct years are labelled differently. */
  lemma EraLabelInjective(a: int, b: int)
    requires EraLabel(a) == EraLabel(b)
    ensures a == b
  {
    EraLabelRoundTrip(a);
    EraLabelRoundTrip(b);
  }

  /** A label names the BCE era exactly when the year is negative. */
  lemma EraLabelBce(year: int)
    ensures var s := EraLabel(year);
      |s| >= 4 && (s[|s| - 4..] == " BCE" <==> year < 0)
  {
    var s := EraLabel(year);
    if year >= 0 {
      var d := NatToString(year);
      assert s[|s| - 4..][0] == d[|d| - 1];
      assert IsDigit(d[|d| - 1]);
    }
  }
}
