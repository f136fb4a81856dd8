/**
  The pieces of Go's integer conversions and of package strconv that the core
  relies on, for a 64-bit platform: `uint(x)`, `int(u)`, `strconv.Itoa`,
  `strconv.Atoi` and `strconv.ParseUint(s, 10, 64)`.
*/
module Strconv {
  import opened Wrappers

  const Pow63: int := 0x8000_0000_0000_0000
  const Pow64: int := 0x1_0000_0000_0000_0000

  /** Go's `uint` (64 bits). */
  type Uint = n: int | 0 <= n < Pow64

  /** Go's `int` (64 bits, two's complement). */
  type Int = n: int | -Pow63 <= n < Pow63

  /** The conversion `uint(x)` of an int: keeps the low 64 bits, so a negative value wraps around. */
  function UintOf(x: Int): (u: Uint)
    ensures 0 <= x ==> u == x
    ensures x < 0 ==> u == x + Pow64
  {
    x % Pow64
  }

  /** The conversion `int(u)`: the same 64 bits read as two's complement. */
  function IntOf(u: Uint): (x: Int)
    ensures u < Pow63 ==> x == u
    ensures Pow63 <= u ==> x < 0
  {
    if u < Pow63 then u else u - Pow64
  }

  /** Converting a uint to int and back loses nothing. */
  lemma UintOfIntOf(u: Uint)
    ensures UintOf(IntOf(u)) == u
  {
  }

  predicate IsDigit(c: char)
  {
    '0' <= c <= '9'
  }

  predicate AllDigits(s: string)
  {
    forall i | 0 <= i < |s| :: IsDigit(s[i])
  }

  function DigitChar(d: nat): (c: char)
    requires d < 10
    ensures IsDigit(c)
  {
    ('0' as int + d) as char
  }

  function DigitValue(c: char): (d: nat)
    requires IsDigit(c)
    ensures d < 10
  {
    c as int - '0' as int
  }

  /** The number a string of decimal digits denotes, most significant digit first (leading zeros allowed). */
  function DecimalValue(s: string): nat
    requires AllDigits(s)
  {
    if s == [] then 0 else DecimalValue(s[..|s| - 1]) * 10 + DigitValue(s[|s| - 1])
  }

  /** The decimal digits of n without leading zeros. */
  function Decimal(n: nat): (s: string)
    ensures |s| > 0 && AllDigits(s)
    ensures n < 10 <==> |s| == 1
    ensures 0 < n ==> s[0] != '0'
  {
    if n < 10 then [DigitChar(n)] else Decimal(n / 10) + [DigitChar(n % 10)]
  }

  /** strconv.Itoa */
  function Itoa(n: int): (s: string)
    ensures |s| > 0
    ensures 0 <= n <==> AllDigits(s)
    ensures n < 0 ==> s[0] == '-' && AllDigits(s[1..])
    ensures 0 <= n && |s| > 1 ==> s[0] != '0'
    ensures n < 0 ==> |s| > 1 && s[1] != '0'
  {
    if n < 0 then assert !IsDigit(("-" + Decimal(-n))[0]); "-" + Decimal(-n) else Decimal(n)
  }

  /**
    strconv.Atoi on a 64-bit platform: an optional '+' or '-', then at least one
    decimal digit and nothing else, denoting a value in the range of int.
    Anything else is a syntax or range error (None).
  */
  function Atoi(s: string): (r: Option<Int>)
    ensures s == [] ==> r.None?
    ensures r.Some? ==> var digits := if IsDigit(s[0]) then s else s[1..];
      (IsDigit(s[0]) || s[0] == '+' || s[0] == '-') && digits != [] && AllDigits(digits)
    ensures r.Some? && s[0] == '-' ==> r.value <= 0
    ensures r.Some? && s[0] != '-' ==> 0 <= r.value
  {
    var signed := |s| > 0 && (s[0] == '+' || s[0] == '-');
    var digits := if signed then s[1..] else s;
    if digits == [] || !AllDigits(digits) then None
    else
      var v: int := if signed && s[0] == '-' then -(DecimalValue(digits) as int) else DecimalValue(digits);
      if -Pow63 <= v < Pow63 then Some(v) else None
  }

  /**
    strconv.ParseUint(s, 10, 64): one or more decimal digits and nothing else
    (no sign, no underscores), denoting a value below 2^64.
  */
  function ParseUint(s: string): (r: Option<Uint>)
    ensures r.Some? <==> s != [] && AllDigits(s) && DecimalValue(s) < Pow64
    ensures r.Some? ==> r.value == DecimalValue(s)
  {
    if s == [] || !AllDigits(s) then None
    else if DecimalValue(s) < Pow64 then Some(DecimalValue(s))
    else None
  }

  /** Printing a natural number in decimal and reading it back gives the number. */
  lemma {:induction false} DecimalRoundTrip(n: nat)
    ensures DecimalValue(Decimal(n)) == n
  {
    if n >= 10 {
      DecimalRoundTrip(n / 10);
      var s := Decimal(n);
      assert s[..|s| - 1] == Decimal(n / 10);
    }
  }

  /** Atoi of unsigned digits. */
  lemma AtoiUnsigned(s: string)
    requires s != [] && AllDigits(s)
    ensures Atoi(s) == if DecimalValue(s) < Pow63 then Some(DecimalValue(s)) else None
  {
    assert IsDigit(s[0]);
  }

  /** Atoi of a minus sign followed by digits. */
  lemma AtoiNegative(s: string)
    requires s != [] && AllDigits(s)
    ensures Atoi("-" + s) == if DecimalValue(s) <= Pow63 then Some(-(DecimalValue(s) as int)) else None
  {
    var t := "-" + s;
    assert t[0] == '-' && t[1..] == s;
  }

  /** Atoi inverts Itoa on every int. */
  lemma AtoiItoa(n: Int)
    ensures Atoi(Itoa(n)) == Some(n)
  {
    if n < 0 {
      DecimalRoundTrip(-(n as int));
      AtoiNegative(Decimal(-(n as int)));
    } else {
      DecimalRoundTrip(n);
      AtoiUnsigned(Decimal(n));
    }
  }

  /** ParseUint inverts the decimal printing of every uint. */
  lemma ParseUintDecimal(u: Uint)
    ensures ParseUint(Decimal(u)) == Some(u)
  {
    DecimalRoundTrip(u);
  }

  /** A uint printed through int(u) and strconv.Itoa is recovered by strconv.Atoi followed by uint(x). */
  lemma UintThroughDecimal(u: Uint)
    ensures Atoi(Itoa(IntOf(u))).Some?
    ensures UintOf(Atoi(Itoa(IntOf(u))).value) == u
  {
    AtoiItoa(IntOf(u));
  }
}
