/** The `usize` arguments of `search` (`--open` and `--columns`): Rust's
    `str::parse::<usize>()` on a 64-bit target, and the decimal numbers the
    listing prints. */
module Numeric {
  import opened Wrappers

  /** `usize::MAX` on a 64-bit target. */
  const UsizeMax: nat := 0xFFFF_FFFF_FFFF_FFFF

  predicate IsDigit(c: char)
  {
    '0' <= c <= '9'
  }

  predicate AllDigits(s: string)
  {
    forall k :: 0 <= k < |s| ==> IsDigit(s[k])
  }

  /** The value of a run of decimal digits, most significant first. */
  function DigitsValue(s: string): nat
    requires AllDigits(s)
  {
    if |s| == 0 then 0
    else DigitsValue(s[..|s| - 1]) * 10 + (s[|s| - 1] as int - '0' as int)
  }

  /** The digits after an optional leading `+`, which `from_str_radix`
      accepts for unsigned types. */
  function Unsigned(s: string): string
  {
    if |s| > 0 && s[0] == '+' then s[1..] else s
  }

  /** `s.parse::<usize>().ok()`: an optional `+`, then at least one ASCII
      digit and nothing else, and a value that fits. */
  function ParseUsize(s: string): (r: Option<nat>)
    ensures r.Some? <==> |Unsigned(s)| > 0 && AllDigits(Unsigned(s)) && DigitsValue(Unsigned(s)) <= UsizeMax
    ensures r.Some? ==> r.value == DigitsValue(Unsigned(s)) && r.value <= UsizeMax
  {
    var d := Unsigned(s);
    if |d| == 0 || !AllDigits(d) then None
    else
      var v := DigitsValue(d);
      if v > UsizeMax then None else Some(v)
  }

  function DigitChar(d: nat): (c: char)
    requires d < 10
    ensures IsDigit(c) && c as int - '0' as int == d
  {
    (d + '0' as int) as char
  }

  /** The decimal rendering of `n` (`{n}` in a format string). */
  function Decimal(n: nat): (s: string)
    ensures |s| > 0 && AllDigits(s)
    ensures s[0] != '+'
  {
    if n < 10 then [DigitChar(n)]
    else Decimal(n / 10) + [DigitChar(n % 10)]
  }

  lemma {:induction false} DecimalValue(n: nat)
    ensures DigitsValue(Decimal(n)) == n
  {
    if n >= 10 {
      var s := Decimal(n);
      assert s[..|s| - 1] == Decimal(n / 10);
      DecimalValue(n / 10);
    }
  }

  /** Every number the listing prints parses back to itself. */
  lemma ParseDecimal(n: nat)
    requires n <= UsizeMax
    ensures ParseUsize(Decimal(n)) == Some(n)
  {
    DecimalValue(n);
  }

  /** Values past `usize::MAX` do not parse. */
  lemma ParseRejectsOverflow(n: nat)
    requires n > UsizeMax
    ensures ParseUsize(Decimal(n)) == None
  {
    DecimalValue(n);
  }
}
