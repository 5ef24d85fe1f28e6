/** Decimal numerals as `fmt` prints them and `strconv.Atoi` reads them. */
module Decimals {
  import opened Commons

  /** The 64-bit bounds of Go's `int` and `int64`. */
  const MAX_INT := 0x7fff_ffff_ffff_ffff
  const MIN_INT := -0x8000_0000_0000_0000

  predicate IsDigit(c: char) { '0' <= c <= '9' }

  function Digit(d: nat): (c: char)
    requires d < 10
    ensures IsDigit(c) && DigitValue(c) == d
  {
    ('0' as int + d) as char
  }

  function DigitValue(c: char): nat
    requires IsDigit(c)
  {
    c as int - '0' as int
  }

  /** What `%d` prints for a number that is not negative. */
  function Decimal(n: nat): (s: string)
    ensures |s| > 0 && forall c | c in s :: IsDigit(c)
  {
    if n < 10 then [Digit(n)] else Decimal(n / 10) + [Digit(n % 10)]
  }

  predicate AllDigits(s: string) {
    forall c | c in s :: IsDigit(c)
  }

  function DigitsValue(s: string): nat
    requires AllDigits(s)
  {
    if s == [] then 0 else 10 * DigitsValue(s[..|s| - 1]) + DigitValue(s[|s| - 1])
  }

  function InRange(v: int): Option<int> {
    if MIN_INT <= v <= MAX_INT then Some(v) else None
  }

  /** Digits with an optional sign, within 64 bits. */
  function ParseInt(s: string): Option<int> {
    if s == [] then None
    else if s[0] == '-' then (if |s| > 1 && AllDigits(s[1..]) then InRange(-(DigitsValue(s[1..]) as int)) else None)
    else if s[0] == '+' then (if |s| > 1 && AllDigits(s[1..]) then InRange(DigitsValue(s[1..])) else None)
    else if AllDigits(s) then InRange(DigitsValue(s)) else None
  }

  lemma {:induction false} DecimalValue(n: nat)
    ensures DigitsValue(Decimal(n)) == n
  {
    if n >= 10 {
      DecimalValue(n / 10);
      var s := Decimal(n / 10) + [Digit(n % 10)];
      assert s[..|s| - 1] == Decimal(n / 10);
    } else {
      var s := [Digit(n)];
      assert s[..|s| - 1] == [];
    }
  }

  /** Reading what was printed gives the number back. */
  lemma ParseDecimal(n: nat)
    requires n <= MAX_INT
    ensures ParseInt(Decimal(n)) == Some(n)
  {
    DecimalValue(n);
    var s := Decimal(n);
    assert s[0] in s && IsDigit(s[0]);
  }

  lemma ParseDigits(s: string)
    requires s != "" && AllDigits(s)
    ensures ParseInt(s) == InRange(DigitsValue(s))
    ensures ParseInt("+" + s) == InRange(DigitsValue(s))
    ensures ParseInt("-" + s) == InRange(-(DigitsValue(s) as int))
  {
    hide DigitsValue, InRange;
    assert s[0] in s && IsDigit(s[0]);
    assert ("+" + s)[1..] == s && ("-" + s)[1..] == s;
  }

  /** A number printed with or without a sign is read back, within 64 bits. */
  lemma ParseSpec(n: nat)
    ensures ParseInt(Decimal(n)) == if n <= 0x7fff_ffff_ffff_ffff then Some(n) else None
    ensures ParseInt("+" + Decimal(n)) == if n <= 0x7fff_ffff_ffff_ffff then Some(n) else None
    ensures ParseInt("-" + Decimal(n)) == if n <= 0x8000_0000_0000_0000 then Some(-(n as int)) else None
  {
    hide ParseInt, DigitsValue;
    DecimalValue(n);
    ParseDigits(Decimal(n));
  }

  /** Only digits with at most one sign are a number. */
  lemma ParsedIsNumber(s: string)
    requires ParseInt(s).Some?
    ensures s != "" && var digits := if s[0] == '-' || s[0] == '+' then s[1..] else s;
      digits != "" && forall c | c in digits :: '0' <= c <= '9'
    ensures -0x8000_0000_0000_0000 <= ParseInt(s).value <= 0x7fff_ffff_ffff_ffff
  {
  }
}
