/** The parts of Rust's standard library whose behaviour the core relies on:
    `Option` and `Result`, panics, bytes, `str::parse` for unsigned integer
    types and the decimal `Display` of a whole number. */
module RustStd {

  newtype byte = x: int | 0 <= x < 0x100

  datatype Option<+T> = None | Some(value: T)

  datatype Result<+T, +E> = Ok(value: T) | Err(error: E)

  /** Why the thread panicked: `unwrap` on a `None`, `unwrap` on an `Err`,
      or an explicit `panic!` with its message. */
  datatype Panic = UnwrapNone | UnwrapErr | Explicit(message: string)

  /** Largest value of `u8` and of `u32`. */
  const U8Max: nat := 0xFF
  const U32Max: nat := 0xFFFF_FFFF

  predicate IsDigit(c: char) {
    '0' <= c <= '9'
  }

  predicate AllDigits(s: string) {
    forall i :: 0 <= i < |s| ==> IsDigit(s[i])
  }

  function DigitValue(c: char): (d: nat)
    requires IsDigit(c)
    ensures d < 10
  {
    c as int - '0' as int
  }

  function DigitChar(d: nat): (c: char)
    requires d < 10
    ensures IsDigit(c) && DigitValue(c) == d
  {
    ('0' as int + d) as char
  }

  /** The number written by a string of decimal digits, most significant first. */
  function DigitsValue(s: string): nat
    requires AllDigits(s)
    decreases |s|
  {
    if s == [] then 0 else 10 * DigitsValue(s[..|s| - 1]) + DigitValue(s[|s| - 1])
  }

  /** `s.parse::<uN>()` for an unsigned type whose largest value is `max`:
      one optional leading '+', then at least one ASCII digit (leading zeros
      allowed), and a value that fits. Anything else fails: the empty
      string, a sign alone, a '-', white space, any other character, and
      a value above `max` (the checked multiply-add overflows exactly then). */
  function ParseUnsigned(s: string, max: nat): (r: Option<nat>)
    ensures r.Some? ==> r.value <= max
    ensures r.Some? ==> s != [] && (s[0] == '+' || IsDigit(s[0])) && AllDigits(s[1..])
    ensures r.Some? && s[0] != '+' ==> DigitsValue(s) == r.value
    ensures r.Some? && s[0] == '+' ==> |s| > 1 && DigitsValue(s[1..]) == r.value
    ensures s != [] && AllDigits(s) && DigitsValue(s) <= max ==> r == Some(DigitsValue(s))
    ensures |s| > 1 && s[0] == '+' && AllDigits(s[1..]) && DigitsValue(s[1..]) <= max ==>
      r == Some(DigitsValue(s[1..]))
  {
    var digits := if |s| > 0 && s[0] == '+' then s[1..] else s;
    if digits != [] && AllDigits(digits) && DigitsValue(digits) <= max
    then Some(DigitsValue(digits))
    else None
  }

  /** The decimal `Display` of a whole number: digits only, no sign, no
      leading zero except for zero itself. */
  function NatToString(n: nat): (s: string)
    ensures s != [] && AllDigits(s)
    ensures s[0] == '0' ==> n == 0 && s == "0"
    decreases n
  {
    if n < 10 then [DigitChar(n)] else NatToString(n / 10) + [DigitChar(n % 10)]
  }

  /** Reading back a written number gives the number. */
  lemma {:induction false} DigitsValueOfNatToString(n: nat)
    ensures DigitsValue(NatToString(n)) == n
  {
    if n >= 10 {
      var prefix := NatToString(n / 10);
      DigitsValueOfNatToString(n / 10);
      assert NatToString(n) == prefix + [DigitChar(n % 10)];
      assert (prefix + [DigitChar(n % 10)])[..|prefix|] == prefix;
    }
  }

  /** Round trip: parsing the decimal form of a number that fits gives the
      number back; a number that does not fit is rejected. */
  lemma ParseNatToString(n: nat, max: nat)
    ensures ParseUnsigned(NatToString(n), max) == if n <= max then Some(n) else None
  {
    DigitsValueOfNatToString(n);
  }
}
