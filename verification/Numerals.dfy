/** Printing and parsing of unsigned and signed numerals (Go's `strconv` and `fmt`). */
module Numerals {
  import opened Wrappers

  const MAX_UINT32: nat := 0xFFFF_FFFF
  const MAX_UINT64: nat := 0xFFFF_FFFF_FFFF_FFFF
  const MAX_INT64: nat := 0x7FFF_FFFF_FFFF_FFFF

  function Digit(d: nat): (c: char)
    requires d < 10
    ensures '0' <= c <= '9' && DigitValue(c) == d
  {
    "0123456789"[d]
  }

  /** The value of a decimal digit, or -1. */
  function DigitValue(c: char): int {
    if '0' <= c <= '9' then c as int - '0' as int else -1
  }

  predicate AllDigits(s: string) { forall c :: c in s ==> '0' <= c <= '9' }

  function Format(n: nat, base: nat): (s: string)
    requires 2 <= base <= 10
    ensures s != "" && AllDigits(s)
    decreases n
  {
    if n < base then [Digit(n)] else Format(n / base, base) + [Digit(n % base)]
  }

  /** The number a digit string denotes, or -1 when a character is not a digit of the base. */
  function Value(s: string, base: nat): (v: int)
    ensures v >= -1
  {
    if s == "" then 0
    else
      var high, low := Value(s[..|s| - 1], base), DigitValue(s[|s| - 1]);
      if high < 0 || low < 0 || low >= base then -1 else high * base + low
  }

  /** `strconv.ParseUint` for an explicit base; a value above `max` is a range error. */
  function ParseUint(s: string, base: nat, max: nat): (r: Option<nat>)
    ensures r.Some? ==> r.value <= max && s != ""
  {
    var v := Value(s, base);
    if s == "" || v < 0 || v > max then None else Some(v)
  }

  /** `strconv.ParseInt(s, 10, 64)`. */
  function ParseInt64(s: string): (r: Option<int>)
    ensures r.Some? ==> -(MAX_INT64 as int) - 1 <= r.value <= MAX_INT64
  {
    if s == "" then None
    else if s[0] == '-' || s[0] == '+' then
      var u := ParseUint(s[1..], 10, MAX_UINT64);
      if u.None? then None
      else
        var magnitude: int := u.value;
        if s[0] == '-' then if magnitude <= MAX_INT64 + 1 then Some(-magnitude) else None
        else if magnitude <= MAX_INT64 then Some(magnitude) else None
    else
      var u := ParseUint(s, 10, MAX_UINT64);
      if u.Some? && u.value <= MAX_INT64 then Some(u.value) else None
  }

  function FormatInt(n: int): (s: string) {
    if n < 0 then "-" + Format(-n, 10) else Format(n, 10)
  }

  /** `fmt`'s `%04o`: octal, padded with zeros to four places. */
  function Octal4(n: nat): (s: string)
    ensures |s| >= 4 && AllDigits(s)
  {
    PadZeros(Format(n, 8), 4)
  }

  function PadZeros(s: string, width: nat): (r: string)
    ensures |r| >= width
    ensures AllDigits(s) ==> AllDigits(r)
    decreases width - |s|
  {
    if |s| >= width then s else PadZeros("0" + s, width)
  }

  lemma {:induction false} FormatParses(n: nat, base: nat)
    requires 2 <= base <= 10
    ensures Value(Format(n, base), base) == n
  {
    if n < base {
      ValueAppend("", n, base);
    } else {
      var q, r := n / base, n % base;
      DivMod(n, base);
      FormatParses(q, base);
      ValueAppend(Format(q, base), r, base);
    }
  }

  lemma DivMod(n: nat, base: nat)
    requires 2 <= base <= n
    ensures n == n / base * base + n % base && n % base < base && n / base < n
  {}

  lemma ValueAppend(s: string, d: nat, base: nat)
    requires d < base <= 10 && Value(s, base) >= 0
    ensures Value(s + [Digit(d)], base) == Value(s, base) * base + d
  {
    var t := s + [Digit(d)];
    assert t[..|t| - 1] == s;
  }

  lemma {:induction false} LeadingZero(s: string, base: nat)
    requires base >= 1
    ensures Value("0" + s, base) == Value(s, base)
  {
    var z := "0" + s;
    if s == "" {
      assert z[..|z| - 1] == "";
    } else {
      LeadingZero(s[..|s| - 1], base);
      assert z[..|z| - 1] == "0" + s[..|s| - 1];
    }
  }

  lemma {:induction false} PaddedValue(s: string, width: nat, base: nat)
    requires base >= 1
    ensures Value(PadZeros(s, width), base) == Value(s, base)
    decreases width - |s|
  {
    if |s| < width {
      LeadingZero(s, base);
      PaddedValue("0" + s, width, base);
    }
  }

  /** Numerals print injectively in every base. */
  lemma FormatInjective(m: nat, n: nat, base: nat)
    requires 2 <= base <= 10 && Format(m, base) == Format(n, base)
    ensures m == n
  {
    FormatParses(m, base);
    FormatParses(n, base);
  }

  /** A mode printed with `%04o` parses back as a 32-bit octal number. */
  lemma Octal4Parses(n: nat)
    requires n <= MAX_UINT32
    ensures ParseUint(Octal4(n), 8, MAX_UINT32) == Some(n)
  {
    PaddedValue(Format(n, 8), 4, 8);
    FormatParses(n, 8);
  }

  /** A size printed with `%d` parses back as an `int64`. */
  lemma DecimalParses(n: nat)
    requires n <= MAX_INT64
    ensures ParseInt64(Format(n, 10)) == Some(n)
  {
    FormatParses(n, 10);
    assert Format(n, 10)[0] in Format(n, 10);
  }

  predicate Int64(n: int) { -(MAX_INT64 as int) - 1 <= n <= MAX_INT64 }

  /** An `int64` of either sign parses back from its decimal form, and nothing larger does. */
  lemma IntParses(n: int)
    ensures ParseInt64(FormatInt(n)) == if Int64(n) then Some(n) else None
  {
    var m := if n < 0 then -n else n;
    FormatParses(m, 10);
    assert Format(m, 10)[0] in Format(m, 10);
    if n < 0 { assert ("-" + Format(m, 10))[1..] == Format(m, 10); }
  }

  /** A plus sign makes no difference. */
  lemma PlusParses(n: nat)
    ensures ParseInt64("+" + Format(n, 10)) == if Int64(n) then Some(n) else None
  {
    FormatParses(n, 10);
    assert ("+" + Format(n, 10))[1..] == Format(n, 10);
  }

  /** Every character is a digit of the base. */
  predicate DigitsOf(s: string, base: nat) { forall c :: c in s ==> '0' <= c && c as int - '0' as int < base }

  lemma {:induction false} ValueNeedsDigits(s: string, base: nat)
    requires base <= 10 && Value(s, base) >= 0
    ensures DigitsOf(s, base)
    decreases |s|
  {
    if s != "" {
      ValueNeedsDigits(s[..|s| - 1], base);
      assert s == s[..|s| - 1] + [s[|s| - 1]];
    }
  }

  /** A number without a sign has at least one digit and only digits of its base. */
  lemma OnlyItsDigitsParse(s: string, base: nat, max: nat)
    requires base <= 10 && ParseUint(s, base, max).Some?
    ensures s != "" && DigitsOf(s, base)
  {
    ValueNeedsDigits(s, base);
  }

  /** Neither a sign alone nor anything but digits after it is a number. */
  lemma OnlyDigitsParse(s: string)
    requires ParseInt64(s).Some?
    ensures s != "" && var digits := if s[0] == '+' || s[0] == '-' then s[1..] else s; digits != "" && AllDigits(digits)
  {
    ValueNeedsDigits(if s[0] == '+' || s[0] == '-' then s[1..] else s, 10);
  }
}
