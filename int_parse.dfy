/** Rust's `str::parse` for the unsigned integer types `u16` and `u32`
    (`FromStr`, i.e. `from_str_radix(s, 10)` in core::num), and the
    `to_string` rendering of those types, which the modelled code relies on. */
module IntParse {
  import opened Wrappers

  newtype u16 = x: int | 0 <= x <= 0xFFFF
  newtype u32 = x: int | 0 <= x <= 0xFFFF_FFFF

  const U16_MAX: nat := 0xFFFF
  const U32_MAX: nat := 0xFFFF_FFFF

  /** The `std::num::IntErrorKind`s that parsing into an unsigned type can produce. */
  datatype IntErrorKind = Empty | InvalidDigit | PosOverflow

  /** `std::num::ParseIntError`. */
  datatype ParseIntError = ParseIntError(kind: IntErrorKind)

  /** The text `Display` prints for a `ParseIntError` of each kind. */
  function Description(k: IntErrorKind): (r: string)
    ensures r == "cannot parse integer from empty string" <==> k == Empty
    ensures r == "invalid digit found in string" <==> k == InvalidDigit
    ensures r == "number too large to fit in target type" <==> k == PosOverflow
  {
    match k
    case Empty => "cannot parse integer from empty string"
    case InvalidDigit => "invalid digit found in string"
    case PosOverflow => "number too large to fit in target type"
  }

  // ---------------------------------------------------------------------
  // Decimal digits and their value: the reference definitions

  predicate IsDigit(c: char) {
    '0' <= c <= '9'
  }

  function DigitValue(c: char): nat
    requires IsDigit(c)
  {
    (c as int) - ('0' as int)
  }

  function DigitChar(d: nat): (c: char)
    requires d < 10
    ensures IsDigit(c) && DigitValue(c) == d
  {
    ('0' as int + d) as char
  }

  predicate AllDigits(s: string) {
    forall i | 0 <= i < |s| :: IsDigit(s[i])
  }

  /** The number a string of decimal digits denotes (most significant digit first). */
  function DecimalValue(s: string): nat
    requires AllDigits(s)
  {
    if s == [] then 0 else DecimalValue(s[..|s| - 1]) * 10 + DigitValue(s[|s| - 1])
  }

  /** What remains of `s` once one leading '+' is taken off. */
  function Unsigned(s: string): string {
    if |s| > 0 && s[0] == '+' then s[1..] else s
  }

  /** The longest prefix of `s` made of decimal digits. */
  function DigitRun(s: string): (r: string)
    ensures r <= s && AllDigits(r)
    ensures |r| < |s| ==> !IsDigit(s[|r|])
    ensures AllDigits(s) ==> r == s
  {
    if s == [] || !IsDigit(s[0]) then [] else [s[0]] + DigitRun(s[1..])
  }

  /** The texts an unsigned parse accepts, the bound aside: an optional '+'
      followed by one or more ASCII digits (no '-', no whitespace). */
  predicate IsUnsignedLiteral(s: string) {
    || (|s| >= 1 && AllDigits(s))
    || (|s| >= 2 && s[0] == '+' && AllDigits(s[1..]))
  }

  /** The number an unsigned literal denotes. */
  function Magnitude(s: string): nat
    requires IsUnsignedLiteral(s)
  {
    assert s[0] == '+' ==> !IsDigit(s[0]);
    DecimalValue(Unsigned(s))
  }

  /** Text that the target type with largest value `max` accepts. */
  predicate Accepts(s: string, max: nat) {
    IsUnsignedLiteral(s) && Magnitude(s) <= max
  }

  /** The digits before the first non-digit (after an optional '+') already exceed `max`. */
  predicate Overflows(s: string, max: nat) {
    DecimalValue(DigitRun(Unsigned(s))) > max
  }

  // ---------------------------------------------------------------------
  // The parser

  /** The digit loop of `from_str_radix` in base 10: `acc` is the value of
      the digits consumed so far. Each character is first checked to be a
      digit, then the checked multiply-and-add is done; either failure ends
      the loop at once. */
  function Accumulate(digits: string, acc: nat, max: nat): (r: Result<nat, IntErrorKind>)
    requires acc <= max
    ensures r.Ok? ==> acc <= r.value <= max
    ensures r != Err(Empty)
    decreases |digits|
  {
    if digits == [] then Ok(acc)
    else if !IsDigit(digits[0]) then Err(InvalidDigit)
    else
      // `checked_mul(10)` then `checked_add(d)`: one of them fails exactly when the sum exceeds max
      var next := acc * 10 + DigitValue(digits[0]);
      if next > max then Err(PosOverflow)
      else Accumulate(digits[1..], next, max)
  }

  /** `from_str_radix(s, 10)` for an unsigned type whose largest value is `max`. */
  function ParseUnsigned(s: string, max: nat): (r: Result<nat, IntErrorKind>)
    ensures r.Ok? ==> r.value <= max
  {
    if s == [] then Err(Empty)
    else if s == "+" || s == "-" then Err(InvalidDigit)
    else Accumulate(Unsigned(s), 0, max)
  }

  /** `s.parse::<u16>()`. */
  function ParseU16(s: string): (r: Result<u16, ParseIntError>)
    ensures r.Ok? <==> Accepts(s, U16_MAX)
    ensures r.Ok? ==> r.value as int == Magnitude(s)
    ensures r == Err(ParseIntError(Empty)) <==> s == []
    ensures r == Err(ParseIntError(PosOverflow)) <==> Overflows(s, U16_MAX)
  {
    ParseUnsignedSpec(s, U16_MAX);
    match ParseUnsigned(s, U16_MAX)
    case Ok(v) => Ok(v as u16)
    case Err(k) => Err(ParseIntError(k))
  }

  /** `s.parse::<u32>()`. */
  function ParseU32(s: string): (r: Result<u32, ParseIntError>)
    ensures r.Ok? <==> Accepts(s, U32_MAX)
    ensures r.Ok? ==> r.value as int == Magnitude(s)
    ensures r == Err(ParseIntError(Empty)) <==> s == []
    ensures r == Err(ParseIntError(PosOverflow)) <==> Overflows(s, U32_MAX)
  {
    ParseUnsignedSpec(s, U32_MAX);
    match ParseUnsigned(s, U32_MAX)
    case Ok(v) => Ok(v as u32)
    case Err(k) => Err(ParseIntError(k))
  }

  /** `n.to_string()` for an unsigned integer: its decimal digits, without
      sign and without leading zeros. */
  function ToDecimal(n: nat): (s: string)
    ensures |s| >= 1 && AllDigits(s)
    ensures s[0] == '0' ==> n == 0 && s == "0"
    decreases n
  {
    if n < 10 then [DigitChar(n)] else ToDecimal(n / 10) + [DigitChar(n % 10)]
  }

  // ---------------------------------------------------------------------
  // Lemmas

  lemma DecimalValueSnoc(p: string, c: char)
    requires AllDigits(p) && IsDigit(c)
    ensures AllDigits(p + [c])
    ensures DecimalValue(p + [c]) == DecimalValue(p) * 10 + DigitValue(c)
  {
  }

  /** Appending digits never makes the value smaller. */
  lemma {:induction false} DecimalValueMonotone(p: string, q: string)
    requires AllDigits(p + q)
    ensures AllDigits(p) && DecimalValue(p) <= DecimalValue(p + q)
    decreases |q|
  {
    assert AllDigits(p) by {
      forall i | 0 <= i < |p| ensures IsDigit(p[i]) {
        assert p[i] == (p + q)[i];
      }
    }
    if q != [] {
      var q' := q[..|q| - 1];
      assert (p + q)[..|p + q| - 1] == p + q';
      DecimalValueMonotone(p, q');
      assert DecimalValue(p + q) == DecimalValue(p + q') * 10 + DigitValue((p + q)[|p + q| - 1]);
    } else {
      assert p + q == p;
    }
  }

  /** The digit loop, started after the digits `p`, ends the way the reference
      says: overflow if the digit run reaches past `max`, an invalid digit if a
      non-digit follows the run, and otherwise the value of all the digits. */
  lemma {:induction false} AccumulateRun(p: string, d: string, max: nat)
    requires AllDigits(p) && DecimalValue(p) <= max
    ensures AllDigits(p + DigitRun(d))
    ensures Accumulate(d, DecimalValue(p), max) ==
      if DecimalValue(p + DigitRun(d)) > max then Err(PosOverflow)
      else if DigitRun(d) != d then Err(InvalidDigit)
      else Ok(DecimalValue(p + DigitRun(d)))
    decreases |d|
  {
    if d == [] || !IsDigit(d[0]) {
      assert p + DigitRun(d) == p;
    } else {
      var c := d[0];
      DecimalValueSnoc(p, c);
      var p' := p + [c];
      var rest := DigitRun(d[1..]);
      assert DigitRun(d) == [c] + rest;
      assert p + DigitRun(d) == p' + rest;
      assert AllDigits(p' + rest) by {
        forall i | 0 <= i < |p' + rest| ensures IsDigit((p' + rest)[i]) {
          if i >= |p'| {
            assert (p' + rest)[i] == rest[i - |p'|];
          }
        }
      }
      if DecimalValue(p') > max {
        DecimalValueMonotone(p', rest);
      } else {
        AccumulateRun(p', d[1..], max);
        assert DigitRun(d) == d <==> rest == d[1..] by {
          assert d == [c] + d[1..];
        }
      }
    }
  }

  /** The unsigned parse, characterised by the reference definitions: it
      succeeds exactly on the accepted texts with their magnitude, reports
      `Empty` exactly for the empty string, `PosOverflow` exactly when the
      leading digit run exceeds `max`, and `InvalidDigit` in every other case. */
  lemma ParseUnsignedSpec(s: string, max: nat)
    ensures ParseUnsigned(s, max).Ok? <==> Accepts(s, max)
    ensures ParseUnsigned(s, max).Ok? ==> ParseUnsigned(s, max).value == Magnitude(s)
    ensures ParseUnsigned(s, max) == Err(Empty) <==> s == []
    ensures ParseUnsigned(s, max) == Err(PosOverflow) <==> Overflows(s, max)
    ensures ParseUnsigned(s, max) == Err(InvalidDigit) <==>
      s != [] && !Accepts(s, max) && !Overflows(s, max)
  {
    var u := Unsigned(s);
    if s == [] || s == "+" || s == "-" {
      assert DigitRun(u) == [];
      assert !IsUnsignedLiteral(s) by {
        if s == "-" { assert !IsDigit(s[0]); }
      }
    } else {
      AccumulateRun([], u, max);
      assert [] + DigitRun(u) == DigitRun(u);
      assert s[0] == '+' ==> !IsDigit(s[0]);
      assert IsUnsignedLiteral(s) <==> AllDigits(u) && |u| >= 1;
      if AllDigits(u) {
        assert DigitRun(u) == u;
      } else {
        assert DigitRun(u) != u;
      }
    }
  }

  /** `to_string` is the inverse of decimal value. */
  lemma {:induction false} ToDecimalValue(n: nat)
    ensures DecimalValue(ToDecimal(n)) == n
    decreases n
  {
    if n >= 10 {
      var s := ToDecimal(n);
      assert s[..|s| - 1] == ToDecimal(n / 10);
      ToDecimalValue(n / 10);
    }
  }

  /** Parsing the rendering of any value of the type gives that value back. */
  lemma ParseToDecimal(n: nat, max: nat)
    requires n <= max
    ensures ParseUnsigned(ToDecimal(n), max) == Ok(n)
  {
    var s := ToDecimal(n);
    ToDecimalValue(n);
    ParseUnsignedSpec(s, max);
    assert Unsigned(s) == s;
  }

  lemma ParseU16ToDecimal(n: u16)
    ensures ParseU16(ToDecimal(n as nat)) == Ok(n)
  {
    ParseToDecimal(n as nat, U16_MAX);
  }

  lemma ParseU32ToDecimal(n: u32)
    ensures ParseU32(ToDecimal(n as nat)) == Ok(n)
  {
    ParseToDecimal(n as nat, U32_MAX);
  }

  /** One leading '+' is ignored, unless what follows is itself signed by '+'. */
  lemma ParsePlusIgnored(d: string, max: nat)
    requires d != [] && d[0] != '+'
    ensures ParseUnsigned(['+'] + d, max) == ParseUnsigned(d, max)
  {
  }

  /** Worked cases of the sign and digit rules. */
  lemma ParseU16SignExamples()
    ensures ParseU16("") == Err(ParseIntError(Empty))
    ensures ParseU16("+") == Err(ParseIntError(InvalidDigit))
    ensures ParseU16("-") == Err(ParseIntError(InvalidDigit))
    ensures ParseU16("-1") == Err(ParseIntError(InvalidDigit))
    ensures ParseU16(" 1") == Err(ParseIntError(InvalidDigit))
    ensures ParseU16("+7") == Ok(7)
    ensures ParseU16("007") == Ok(7)
  {
  }

  /** Worked cases of the u16 bound: overflow is reported even before a later non-digit. */
  lemma ParseU16BoundExamples()
    ensures ParseU16("65535") == Ok(65535)
    ensures ParseU16("65536") == Err(ParseIntError(PosOverflow))
    ensures ParseU16("65536x") == Err(ParseIntError(PosOverflow))
  {
  }
}
