/**
 * Decimal text of integers: Python's `str(int)` and the `'0<w>d'` / `'+0<w>d'`
 * format specifications, with the parser that reads such text back.
 */
module Decimal {
  import opened Wrappers

  function DigitChar(d: nat): (c: char)
    requires d < 10
    ensures '0' <= c <= '9' && (c as int) - ('0' as int) == d
  {
    (('0' as int) + d) as char
  }

  predicate IsDigits(s: string) {
    forall i :: 0 <= i < |s| ==> '0' <= s[i] <= '9'
  }

  /** The shortest decimal numeral of n (no leading zero except for 0 itself). */
  function NatDigits(n: nat): (s: string)
    ensures |s| >= 1 && IsDigits(s)
    ensures n > 0 ==> s[0] != '0'
    decreases n
  {
    if n < 10 then [DigitChar(n)] else NatDigits(n / 10) + [DigitChar(n % 10)]
  }

  /** The number a string of decimal digits denotes. */
  function DigitsValue(s: string): nat
    requires IsDigits(s)
    decreases |s|
  {
    if s == [] then 0
    else 10 * DigitsValue(s[..|s| - 1]) + ((s[|s| - 1] as int) - ('0' as int))
  }

  lemma {:induction false} DigitsRoundTrip(n: nat)
    ensures DigitsValue(NatDigits(n)) == n
    decreases n
  {
    if n >= 10 {
      DigitsRoundTrip(n / 10);
      var s := NatDigits(n / 10) + [DigitChar(n % 10)];
      assert s[..|s| - 1] == NatDigits(n / 10);
    }
  }

  function Pow10(k: nat): (p: nat)
    ensures p >= 1
  {
    if k == 0 then 1 else 10 * Pow10(k - 1)
  }

  /** A number below 10^w needs at most w digits (at least one). */
  lemma {:induction false} DigitsLength(n: nat, w: nat)
    requires 1 <= w && n < Pow10(w)
    ensures |NatDigits(n)| <= w
    decreases w
  {
    if n >= 10 {
      assert w >= 2;
      DigitsLength(n / 10, w - 1);
    }
  }

  function Zeros(k: nat): (s: string)
    ensures |s| == k && IsDigits(s)
    ensures forall i :: 0 <= i < k ==> s[i] == '0'
  {
    seq(k, _ => '0')
  }

  /** Leading zeros do not change the value of a numeral. */
  lemma {:induction false} LeadingZerosValue(k: nat, s: string)
    requires IsDigits(s)
    ensures IsDigits(Zeros(k) + s) && DigitsValue(Zeros(k) + s) == DigitsValue(s)
    decreases |s|
  {
    var t := Zeros(k) + s;
    if s == [] {
      ZerosValue(k);
      assert t == Zeros(k);
    } else {
      LeadingZerosValue(k, s[..|s| - 1]);
      assert t[..|t| - 1] == Zeros(k) + s[..|s| - 1];
    }
  }

  lemma {:induction false} ZerosValue(k: nat)
    ensures DigitsValue(Zeros(k)) == 0
    decreases k
  {
    if k > 0 {
      ZerosValue(k - 1);
      assert Zeros(k)[..k - 1] == Zeros(k - 1);
    }
  }

  function Abs(n: int): nat {
    if n < 0 then -n else n
  }

  /** Python's `str(i)` for an integer i. */
  function IntToDecimal(i: int): (s: string)
    ensures ParseInt(s) == Some(i)
  {
    var digits := NatDigits(Abs(i));
    DigitsRoundTrip(Abs(i));
    if i < 0 then ParseSigned('-', digits); "-" + digits
    else ParseBare(digits); digits
  }

  function SignText(n: int, plus: bool): string {
    if n < 0 then "-" else if plus then "+" else ""
  }

  /**
   * Python's `format(n, '0<width>d')` (plus == false) or `format(n, '+0<width>d')`
   * (plus == true): the sign, then zeros, then the digits, padded to at least width.
   */
  function FormatInt(n: int, width: nat, plus: bool): (s: string)
    ensures |s| == if |SignText(n, plus)| + |NatDigits(Abs(n))| < width then width
                   else |SignText(n, plus)| + |NatDigits(Abs(n))|
  {
    var sign := SignText(n, plus);
    var digits := NatDigits(Abs(n));
    var pad := if |sign| + |digits| < width then width - |sign| - |digits| else 0;
    sign + Zeros(pad) + digits
  }

  /** The padded numeral reads back as the number it was made from. */
  lemma FormatIntReadsBack(n: int, width: nat, plus: bool)
    ensures ParseInt(FormatInt(n, width, plus)) == Some(n)
  {
    var sign := SignText(n, plus);
    var digits := NatDigits(Abs(n));
    var pad := if |sign| + |digits| < width then width - |sign| - |digits| else 0;
    FormatIntParses(sign, pad, digits, n);
  }

  lemma FormatIntParses(sign: string, pad: nat, digits: string, n: int)
    requires sign == SignText(n, false) || sign == SignText(n, true)
    requires digits == NatDigits(Abs(n))
    ensures ParseInt(sign + Zeros(pad) + digits) == Some(n)
  {
    DigitsRoundTrip(Abs(n));
    LeadingZerosValue(pad, digits);
    var body := Zeros(pad) + digits;
    assert sign + Zeros(pad) + digits == sign + body;
    ParseWithSign(sign, body, n);
  }

  lemma ParseWithSign(sign: string, body: string, n: int)
    requires |body| >= 1 && IsDigits(body) && DigitsValue(body) == Abs(n)
    requires (n < 0 && sign == "-") || (n >= 0 && (sign == "" || sign == "+"))
    ensures ParseInt(sign + body) == Some(n)
  {
    if sign == "" {
      assert sign + body == body;
      ParseBare(body);
    } else {
      assert sign == [sign[0]];
      ParseSigned(sign[0], body);
    }
  }

  lemma ParseBare(d: string)
    requires |d| >= 1 && IsDigits(d)
    ensures ParseInt(d) == Some(DigitsValue(d))
  {
    assert '0' <= d[0] <= '9';
  }

  lemma ParseSigned(c: char, d: string)
    requires c == '-' || c == '+'
    requires |d| >= 1 && IsDigits(d)
    ensures ParseInt([c] + d) == Some(if c == '-' then -(DigitsValue(d) as int) else DigitsValue(d) as int)
  {
    assert ([c] + d)[1..] == d;
  }

  /** An optionally signed decimal numeral, as Python's `int(text)` reads it (no blanks or underscores). */
  function ParseInt(s: string): Option<int> {
    if |s| >= 2 && s[0] == '-' && IsDigits(s[1..]) then Some(0 - DigitsValue(s[1..]))
    else if |s| >= 2 && s[0] == '+' && IsDigits(s[1..]) then Some(DigitsValue(s[1..]))
    else if |s| >= 1 && IsDigits(s) then Some(DigitsValue(s))
    else None
  }

  /** A non-negative number below 10^width is written in exactly width characters. */
  lemma FormatIntWidth(n: int, width: nat, plus: bool)
    requires 1 <= width && 0 <= n < Pow10(width) && !plus
    ensures |FormatInt(n, width, plus)| == width
  {
    DigitsLength(n, width);
  }

  /** A signed number of magnitude below 100 takes exactly three characters with '+03d'. */
  lemma FormatSignedWidth(n: int)
    requires -100 < n < 100
    ensures |FormatInt(n, 3, true)| == 3
  {
    DigitsLength(Abs(n), 2);
  }

  /** `format(n, '02d')` for 0 <= n < 100: the tens digit, then the units digit. */
  lemma TwoDigits(n: int)
    requires 0 <= n < 100
    ensures FormatInt(n, 2, false) == [DigitChar(n / 10), DigitChar(n % 10)]
  {
    if n < 10 {
      assert Zeros(1) == "0";
      assert DigitChar(0) == '0';
    } else {
      assert NatDigits(n) == [DigitChar(n / 10)] + [DigitChar(n % 10)];
      assert Zeros(0) == [];
      assert FormatInt(n, 2, false) == "" + Zeros(0) + NatDigits(n);
    }
  }
}
