/** The pieces of Python's integer conversions the modelled code relies on: `str(n)` for an
    `int`, and `int(s)` for decimal text. */
module PyInts {
  import opened Wrappers
  import opened PyStrings

  /** An ASCII decimal digit. */
  predicate IsDigit(c: char) {
    '0' <= c <= '9'
  }

  /** A non-empty run of ASCII digits. */
  predicate IsDigits(s: string) {
    s != [] && forall i :: 0 <= i < |s| ==> IsDigit(s[i])
  }

  /** The digit character for `d`. */
  function DigitChar(d: nat): (c: char)
    requires d < 10
    ensures IsDigit(c) && c as int - '0' as int == d
  {
    ('0' as int + d) as char
  }

  /** `str(n)` for a non-negative integer: its decimal digits, without leading zeros. */
  function ShowNat(n: nat): (s: string)
    ensures IsDigits(s)
    ensures |s| > 1 ==> s[0] != '0'
  {
    if n < 10 then [DigitChar(n)] else ShowNat(n / 10) + [DigitChar(n % 10)]
  }

  /** `str(n)`: a minus sign before the digits of a negative number. */
  function ShowInt(n: int): (s: string)
    ensures s != []
    ensures n < 0 <==> s[0] == '-'
    ensures n < 0 ==> IsDigits(s[1..])
    ensures n >= 0 ==> IsDigits(s)
  {
    if n < 0 then "-" + ShowNat(-n) else ShowNat(n)
  }

  /** The value of a run of decimal digits. */
  function DigitsValue(s: string): (v: nat)
    requires forall i :: 0 <= i < |s| ==> IsDigit(s[i])
  {
    if s == [] then 0
    else
      assert IsDigit(s[|s| - 1]);
      DigitsValue(s[..|s| - 1]) * 10 + (s[|s| - 1] as int - '0' as int)
  }

  /** `int(s)` on text: surrounding whitespace is ignored, then an optional sign and at least
      one ASCII digit must make up the rest; anything else raises ValueError (`None`). */
  function ParseInt(s: string): (r: Option<int>)
    ensures r.Some? ==> Strip(s) != []
  {
    ParseSigned(Strip(s))
  }

  /** `int` on text already stripped: an optional sign, then at least one ASCII digit. */
  function ParseSigned(t: string): Option<int> {
    if t == [] then None
    else
      var negative := t[0] == '-';
      var digits := if t[0] == '-' || t[0] == '+' then t[1..] else t;
      if !IsDigits(digits) then None
      else
        var magnitude: int := DigitsValue(digits);
        Some(if negative then -magnitude else magnitude)
  }

  /** Reading back the digits `str` writes gives the number. */
  lemma {:induction false} DigitsValueOfShowNat(n: nat)
    ensures DigitsValue(ShowNat(n)) == n
  {
    if n >= 10 {
      var s := ShowNat(n);
      DigitsValueOfShowNat(n / 10);
      assert s[..|s| - 1] == ShowNat(n / 10);
    }
  }

  /** Text that starts and ends with a non-whitespace character is its own `strip()`. */
  lemma StripUnchanged(s: string)
    requires s != [] && !IsSpace(s[0]) && !IsSpace(s[|s| - 1])
    ensures Strip(s) == s
  {
    assert SkipSpace(s) == s;
    assert TrimEnd(s) == s;
  }

  /** `int(str(n)) == n` for every integer. */
  lemma ParseShowInt(n: int)
    ensures ParseInt(ShowInt(n)) == Some(n)
  {
    var s := ShowInt(n);
    if n < 0 {
      var d := ShowNat(-n);
      assert s == "-" + d && s[1..] == d;
      assert s[|s| - 1] == d[|d| - 1];
      StripUnchanged(s);
      ParseSignedDigits(s, true, d);
      DigitsValueOfShowNat(-n);
    } else {
      StripUnchanged(s);
      ParseSignedDigits(s, false, s);
      DigitsValueOfShowNat(n);
    }
  }

  /** A run of digits, after a minus sign when `negative`, parses to the value of the
      digits, negated when `negative`. */
  lemma ParseSignedDigits(s: string, negative: bool, d: string)
    requires IsDigits(d)
    requires s == if negative then "-" + d else d
    ensures ParseSigned(s) == Some(if negative then -(DigitsValue(d) as int) else DigitsValue(d) as int)
  {
    if negative {
      assert s[0] == '-' && s[1..] == d;
    } else {
      assert IsDigit(s[0]);
    }
  }
}
