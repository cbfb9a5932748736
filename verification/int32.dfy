/** Java `int` arithmetic the client depends on: the 32-bit range, two's
    complement wrap-around of a narrowing conversion, `Integer.toString` and
    `Integer.parseInt` (radix 10, ASCII digits).
 */
module Int32 {
  import opened Wrappers
  import Text

  const MIN: int := -0x8000_0000
  const MAX: int := 0x7FFF_FFFF
  const MODULUS: int := 0x1_0000_0000

  type int32 = i: int | MIN <= i <= MAX

  /** Narrowing to `int` (a `(int)` cast of a `long`, `BigInteger.intValue()`,
      or an `int` multiplication that overflows): keep the low 32 bits. */
  function Wrap(i: int): (r: int32)
    ensures (r - i) % MODULUS == 0
    ensures MIN <= i <= MAX ==> r == i
  {
    var m := i % MODULUS;
    if m > MAX then m - MODULUS else m
  }

  // ---------------------------------------------------------------------
  // Decimal text
  // ---------------------------------------------------------------------

  function DigitValue(c: char): nat
    requires Text.IsDigit(c)
  {
    c as int - '0' as int
  }

  function DigitChar(d: nat): (c: char)
    requires d < 10
    ensures Text.IsDigit(c) && DigitValue(c) == d
  {
    ('0' as int + d) as char
  }

  /** The value of a run of decimal digits, most significant first. */
  function DigitsValue(ds: string): nat
    requires Text.AllDigits(ds)
  {
    if |ds| == 0 then 0
    else DigitsValue(ds[..|ds| - 1]) * 10 + DigitValue(ds[|ds| - 1])
  }

  /** Decimal digits of a natural number, no leading zeros. */
  function ShowNat(n: nat): (s: string)
    ensures |s| > 0 && Text.AllDigits(s)
  {
    if n < 10 then [DigitChar(n)] else ShowNat(n / 10) + [DigitChar(n % 10)]
  }

  /** `Integer.toString(i)` / `String.valueOf(i)`. */
  function Show(i: int): (s: string)
    ensures |s| > 0
    ensures i < 0 <==> s[0] == '-'
    ensures i >= 0 ==> Text.AllDigits(s)
    ensures i < 0 ==> Text.AllDigits(s[1..])
  {
    if i < 0 then "-" + ShowNat(-i) else ShowNat(i)
  }

  lemma {:induction false} ShowNatValue(n: nat)
    ensures DigitsValue(ShowNat(n)) == n
  {
    if n >= 10 {
      var s := ShowNat(n);
      assert s[..|s| - 1] == ShowNat(n / 10);
      ShowNatValue(n / 10);
    }
  }

  /** `Integer.parseInt(s)`: an optional sign followed by at least one digit,
      whose value must fit in 32 bits; anything else throws
      NumberFormatException. Only ASCII digits are modelled. */
  function ParseInt(s: string): (r: Result<int32>)
    ensures r.Ok? ==> |s| > 0
    ensures r.Ok? && Text.AllDigits(s) ==> r.value == DigitsValue(s)
    ensures Text.AllDigits(s) && |s| > 0 ==> (r.Ok? <==> DigitsValue(s) <= MAX)
  {
    if |s| == 0 then Thrown("For input string: \"\"")
    else
      var negative := s[0] == '-';
      var digits := if s[0] == '-' || s[0] == '+' then s[1..] else s;
      if |digits| == 0 || !Text.AllDigits(digits) then
        Thrown("For input string: \"" + s + "\"")
      else
        var v := DigitsValue(digits);
        var signed: int := if negative then -(v as int) else v;
        if MIN <= signed <= MAX then Ok(signed)
        else Thrown("For input string: \"" + s + "\"")
  }

  /** `Integer.parseInt(Integer.toString(i)) == i` for every `int`. */
  lemma ParseShowRoundTrip(i: int32)
    ensures ParseInt(Show(i)) == Ok(i)
  {
    if i < 0 {
      var s := Show(i);
      assert s[1..] == ShowNat(-(i as int));
      ShowNatValue(-(i as int));
    } else {
      ShowNatValue(i);
    }
  }

  /** Text with anything but digits after the optional sign never parses. */
  lemma ParseRejectsNonDigit(s: string, k: nat)
    requires 0 < k < |s| && !Text.IsDigit(s[k])
    ensures ParseInt(s).Thrown?
  {
    if s[0] == '-' || s[0] == '+' {
      assert s[1..][k - 1] == s[k];
    }
  }
}
