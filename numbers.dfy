/**
 * `parse_int` (Python's `int(text)` falling back to `float("nan")`) and `str(n)`,
 * which `str.format` uses to print the allocation percentages.
 */
module Numbers {

  /** What `parse_int` returns: an integer, or the float NaN when `int()` raises ValueError. */
  datatype Parsed = Int(value: int) | NaN

  /** Python's `p <= k`: false when `p` is NaN. */
  predicate AtMost(p: Parsed, k: int) {
    p.Int? && p.value <= k
  }

  /** Python's `p > k`: false when `p` is NaN. */
  predicate Above(p: Parsed, k: int) {
    p.Int? && p.value > k
  }

  /** Python's `p < k`: false when `p` is NaN. */
  predicate Below(p: Parsed, k: int) {
    p.Int? && p.value < k
  }

  predicate IsDigit(c: char) {
    '0' <= c <= '9'
  }

  predicate AllDigits(s: string) {
    forall i | 0 <= i < |s| :: IsDigit(s[i])
  }

  function DigitValue(c: char): nat
    requires IsDigit(c)
  {
    c as int - '0' as int
  }

  function DigitChar(d: nat): char
    requires d < 10
  {
    ('0' as int + d) as char
  }

  /** The value of a string of decimal digits, most significant first. */
  function DigitsValue(s: string): nat
    requires AllDigits(s)
    decreases |s|
  {
    if s == [] then 0 else DigitsValue(s[..|s| - 1]) * 10 + DigitValue(s[|s| - 1])
  }

  /** Integer text: an optional sign followed by at least one decimal digit. */
  function ParseInt(s: string): (r: Parsed)
    ensures s == [] ==> r == NaN
    ensures r.Int? && r.value < 0 ==> s[0] == '-'
  {
    if |s| > 1 && (s[0] == '-' || s[0] == '+') && AllDigits(s[1..]) then
      var magnitude: int := DigitsValue(s[1..]);
      Int(if s[0] == '-' then -magnitude else magnitude)
    else if |s| > 0 && AllDigits(s) then
      Int(DigitsValue(s))
    else
      NaN
  }

  /** Decimal digits of `n` with no leading zero. */
  function ShowNat(n: nat): (s: string)
    ensures |s| > 0 && AllDigits(s)
    ensures s[0] == '0' ==> n == 0
  {
    if n < 10 then [DigitChar(n)] else ShowNat(n / 10) + [DigitChar(n % 10)]
  }

  /** Python's `str(n)` for an int. */
  function ShowInt(n: int): (s: string)
    ensures |s| > 0 && (s[0] == '-' <==> n < 0)
    ensures var digits := if n < 0 then s[1..] else s;
            |digits| > 0 && AllDigits(digits) && (digits[0] == '0' ==> n == 0)
  {
    if n < 0 then "-" + ShowNat(-n) else ShowNat(n)
  }

  lemma {:induction false} ShowNatValue(n: nat)
    ensures DigitsValue(ShowNat(n)) == n
  {
    if n >= 10 {
      ShowNatValue(n / 10);
      var s := ShowNat(n);
      assert s[..|s| - 1] == ShowNat(n / 10);
    }
  }

  /** Reading back the printed form of any integer gives that integer. */
  lemma ParseShowInt(n: int)
    ensures ParseInt(ShowInt(n)) == Int(n)
  {
    if n < 0 {
      ShowNatValue(-n);
      assert ShowInt(n)[1..] == ShowNat(-n);
    } else {
      ShowNatValue(n);
    }
  }

  /** Text with a character that is neither a digit nor a leading sign is not a number. */
  lemma NonDigitIsNaN(s: string, i: nat)
    requires i < |s| && !IsDigit(s[i])
    requires i == 0 ==> s[0] != '-' && s[0] != '+'
    ensures ParseInt(s) == NaN
  {
    if i > 0 {
      assert s[1..][i - 1] == s[i];
    }
  }
}
