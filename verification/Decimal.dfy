/** Rust's decimal printing and parsing of u64 and i64. */
module Decimal {
  import opened Base
  import opened Endian

  const I64_MIN: int := -0x8000_0000_0000_0000

  type i64 = n: int | I64_MIN <= n <= I64_MAX

  const ZERO: byte := 48
  const PLUS: byte := 43
  const MINUS: byte := 45

  predicate IsDigit(b: byte) {
    ZERO <= b <= 57
  }

  function Printed(n: nat): (s: bytes)
    ensures s != [] && forall i :: 0 <= i < |s| ==> IsDigit(s[i])
  {
    if n < 10 then [(n + 48) as byte] else Printed(n / 10) + [(n % 10 + 48) as byte]
  }

  function PrintedSigned(n: int): bytes {
    if n < 0 then [MINUS] + Printed(-n) else Printed(n)
  }

  /** The value of a string of digits. */
  function DigitsValue(s: bytes): Option<nat> {
    if s == [] then Some(0)
    else
      match DigitsValue(s[..|s| - 1])
      case None => None
      case Some(n) => if IsDigit(s[|s| - 1]) then Some(10 * n + (s[|s| - 1] as nat - 48)) else None
  }

  /** `str::parse::<u64>`: an optional plus, then at least one digit, then the range. */
  function ParseU64(s: bytes): Option<u64> {
    var digits := if s != [] && s[0] == PLUS then s[1..] else s;
    match DigitsValue(digits)
    case None => None
    case Some(n) => if digits != [] && n <= U64_MAX then Some(n) else None
  }

  /** `str::parse::<i64>`: an optional sign, then at least one digit, then the range. */
  function ParseI64(s: bytes): Option<i64> {
    var digits := if s != [] && (s[0] == PLUS || s[0] == MINUS) then s[1..] else s;
    match DigitsValue(digits)
    case None => None
    case Some(n) =>
      var value: int := if s != [] && s[0] == MINUS then 0 - n else n;
      if digits != [] && I64_MIN <= value <= I64_MAX then Some(value) else None
  }

  lemma {:induction false} PrintedValue(n: nat)
    ensures DigitsValue(Printed(n)) == Some(n)
  {
    var s := Printed(n);
    if n < 10 {
      assert s[..|s| - 1] == [];
    } else {
      PrintedValue(n / 10);
      assert s[..|s| - 1] == Printed(n / 10);
    }
  }

  lemma DigitsParse(s: bytes, n: nat)
    requires s != [] && IsDigit(s[0]) && DigitsValue(s) == Some(n)
    ensures n <= U64_MAX ==> ParseU64(s) == Some(n)
    ensures n <= I64_MAX ==> ParseI64(s) == Some(n)
  {
  }

  lemma NegativeParses(s: bytes, n: nat)
    requires s != [] && DigitsValue(s) == Some(n) && n <= I64_MAX + 1
    ensures ParseI64([MINUS] + s) == Some(0 - n)
  {
    assert ([MINUS] + s)[1..] == s;
  }

  lemma U64RoundTrip(n: u64)
    ensures ParseU64(Printed(n)) == Some(n)
  {
    PrintedValue(n);
    DigitsParse(Printed(n), n);
  }

  lemma I64RoundTrip(n: i64)
    ensures ParseI64(PrintedSigned(n)) == Some(n)
  {
    if n < 0 {
      PrintedValue(0 - n);
      NegativeParses(Printed(0 - n), 0 - n);
    } else {
      PrintedValue(n);
      DigitsParse(Printed(n), n);
    }
  }
}
