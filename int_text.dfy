/**
 * Python's `str(n)` for integers, and the reading back that `int(s)` performs on
 * such strings: an optional minus sign followed by decimal digits.
 */
module IntText {
  import opened Wrappers

  /** The character of a decimal digit. */
  function DigitChar(d: nat): char
    requires d < 10
  {
    ('0' as int + d) as char
  }

  /** Every character is a decimal digit. */
  predicate IsDigits(s: string) {
    forall i :: 0 <= i < |s| ==> '0' <= s[i] <= '9'
  }

  /** The number a digit string denotes, most significant digit first. */
  function DigitsValue(s: string): nat
    requires IsDigits(s)
  {
    if s == [] then 0
    else DigitsValue(s[..|s| - 1]) * 10 + (s[|s| - 1] as int - '0' as int)
  }

  /** The decimal digits of a natural, without leading zeros. */
  function NatToString(n: nat): string
  {
    if n < 10 then [DigitChar(n)] else NatToString(n / 10) + [DigitChar(n % 10)]
  }

  /**
   * `int(s)` on the strings `str` produces: an optional minus sign followed by at
   * least one digit. Python's `int` also accepts a plus sign, surrounding
   * whitespace and underscores between digits; those forms never reach it here,
   * and this function refuses them.
   */
  function ParseInt(s: string): Option<int> {
    if |s| >= 2 && s[0] == '-' && IsDigits(s[1..]) then Some(-(DigitsValue(s[1..]) as int))
    else if |s| >= 1 && IsDigits(s) then Some(DigitsValue(s))
    else None
  }

  /** The digits of `n` are digits, start with a non-zero one unless `n` is 0, and denote `n`. */
  lemma {:induction false} NatToStringValue(n: nat)
    ensures var s := NatToString(n);
      && |s| >= 1 && IsDigits(s) && DigitsValue(s) == n
      && (s[0] == '0' <==> n == 0)
  {
    if n >= 10 {
      NatToStringValue(n / 10);
      var s := NatToString(n);
      assert s[..|s| - 1] == NatToString(n / 10);
    }
  }

  /**
   * `str(n)`: a minus sign for negatives, then the digits of the magnitude. The
   * string reads back as `n`, and it is the canonical spelling: no leading zero
   * (other than "0" itself) and no sign on non-negatives.
   */
  function IntToString(n: int): (s: string)
    ensures ParseInt(s) == Some(n)
    ensures n >= 0 ==> |s| >= 1 && IsDigits(s) && (s[0] == '0' ==> s == "0")
    ensures n < 0 ==> |s| >= 2 && s[0] == '-' && IsDigits(s[1..]) && s[1] != '0'
  {
    var digits := NatToString(if n < 0 then -n else n);
    NatToStringValue(if n < 0 then -n else n);
    if n < 0 then
      assert ("-" + digits)[1..] == digits;
      "-" + digits
    else
      assert digits[0] == '0' ==> digits == "0" by {
        if digits[0] == '0' { assert n == 0; }
      }
      digits
  }
}
