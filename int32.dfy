/**
 * Rust's `i32` and its `FromStr` parser, as used for the argument of `exit`:
 * an optional `+` or `-`, then one or more ASCII digits, and a value that
 * fits in 32 bits; anything else is an error.
 */
module Int32 {
  import opened Wrappers

  const MIN: int := -0x8000_0000
  const MAX: int := 0x7FFF_FFFF

  newtype i32 = x: int | -0x8000_0000 <= x <= 0x7FFF_FFFF

  predicate IsDigit(c: char)
  {
    '0' <= c <= '9'
  }

  predicate AllDigits(s: string)
  {
    forall i :: 0 <= i < |s| ==> IsDigit(s[i])
  }

  function DigitValue(c: char): (d: nat)
    requires IsDigit(c)
    ensures d < 10
  {
    c as int - '0' as int
  }

  function DigitChar(d: nat): (c: char)
    requires d < 10
    ensures IsDigit(c) && DigitValue(c) == d
  {
    ('0' as int + d) as char
  }

  /** The value of a run of decimal digits, most significant first. */
  function DigitsValue(s: string): nat
    requires AllDigits(s)
  {
    if s == [] then 0 else DigitsValue(s[..|s| - 1]) * 10 + DigitValue(s[|s| - 1])
  }

  /** The signed value that `sign` (empty, `+` or `-`) and the digits `ds` denote. */
  function Signed(sign: string, ds: string): int
    requires AllDigits(ds)
  {
    if sign == "-" then 0 - DigitsValue(ds) else DigitsValue(ds)
  }

  /** `<i32 as FromStr>::from_str`. */
  function ParseI32(s: string): (r: Option<i32>)
    ensures r.Some? ==> s != [] && s != "+" && s != "-"
  {
    if s == [] then None
    else
      var digits := if s[0] == '-' || s[0] == '+' then s[1..] else s;
      if digits == [] || !AllDigits(digits) then None
      else
        var v := if s[0] == '-' then 0 - DigitsValue(digits) else DigitsValue(digits);
        if MIN <= v <= MAX then Some(v as i32) else None
  }

  /** The shortest decimal spelling of `n`. */
  function Decimal(n: nat): (r: string)
    ensures |r| > 0 && AllDigits(r)
    ensures r[0] != '0' || n == 0
  {
    if n < 10 then [DigitChar(n)] else Decimal(n / 10) + [DigitChar(n % 10)]
  }

  /** How an `i32` is written: `-` before the magnitude of a negative value. */
  function Show(n: i32): string
  {
    if n < 0 then "-" + Decimal(-(n as int)) else Decimal(n as int)
  }

  lemma {:induction false} DecimalValue(n: nat)
    ensures DigitsValue(Decimal(n)) == n
  {
    if n >= 10 {
      var r := Decimal(n);
      assert r[..|r| - 1] == Decimal(n / 10);
      DecimalValue(n / 10);
    }
  }

  /**
   * A well-formed signed decimal parses to the value it denotes exactly when
   * that value fits in an `i32`; leading zeros and a `+` are accepted.
   */
  lemma ParseWellFormed(sign: string, ds: string)
    requires sign == "" || sign == "+" || sign == "-"
    requires ds != [] && AllDigits(ds)
    ensures ParseI32(sign + ds).Some? <==> MIN <= Signed(sign, ds) <= MAX
    ensures ParseI32(sign + ds).Some? ==> ParseI32(sign + ds).value as int == Signed(sign, ds)
  {
    var s := sign + ds;
    if sign == "" {
      assert s == ds;
    } else {
      assert s[1..] == ds;
    }
  }

  /** A character that is neither a digit nor a leading sign makes the parse fail. */
  lemma ParseRejectsJunk(s: string, k: nat)
    requires k < |s| && !IsDigit(s[k])
    requires k > 0 || (s[0] != '+' && s[0] != '-')
    ensures ParseI32(s) == None
  {
  }

  /** Every `i32` survives being written out and parsed back. */
  lemma ParseShow(n: i32)
    ensures ParseI32(Show(n)) == Some(n)
  {
    if n < 0 {
      DecimalValue(-(n as int));
      ParseWellFormed("-", Decimal(-(n as int)));
    } else {
      DecimalValue(n as int);
      ParseWellFormed("", Decimal(n as int));
      assert "" + Decimal(n as int) == Decimal(n as int);
    }
  }
}
