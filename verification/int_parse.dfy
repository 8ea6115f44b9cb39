/** Kotlin's `String.toIntOrNull()` in radix 10, which the batch uses to read the number
    of codes typed into its dialog, and the `?: 0` fallback applied to it. */
module IntParse {
  import opened Wrappers

  /** The range of Kotlin's 32-bit `Int`. */
  const IntMin: int := -0x8000_0000
  const IntMax: int := 0x7fff_ffff

  predicate IsDigit(c: char) {
    '0' <= c <= '9'
  }

  predicate AllDigits(s: string) {
    forall k :: 0 <= k < |s| ==> IsDigit(s[k])
  }

  /** An optional `+` or `-` followed by at least one decimal digit. */
  predicate IsNumeral(s: string) {
    (|s| >= 1 && AllDigits(s)) || (|s| >= 2 && (s[0] == '+' || s[0] == '-') && AllDigits(s[1..]))
  }

  /** The value of a run of decimal digits, most significant first. */
  function DigitsValue(s: string): nat
    requires AllDigits(s)
  {
    if s == [] then 0 else DigitsValue(s[..|s| - 1]) * 10 + (s[|s| - 1] as int - '0' as int)
  }

  /** The value a numeral denotes: its digits, negated after a `-`. */
  function NumeralValue(s: string): int
    requires IsNumeral(s)
  {
    if s[0] == '-' then -(DigitsValue(s[1..]) as int)
    else if s[0] == '+' then DigitsValue(s[1..])
    else DigitsValue(s)
  }

  /** Whether a number fits Kotlin's `Int`. */
  predicate Fits(v: int) {
    IntMin <= v <= IntMax
  }

  function InIntRange(v: int): Option<int> {
    if IntMin <= v <= IntMax then Some(v) else None
  }

  /** `toIntOrNull()`: a numeral whose value fits an `Int`, or nothing. A first
      character below `'0'` can only be a sign, and a sign alone is not a number. */
  function ToIntOrNull(s: string): (r: Option<int>)
    ensures r.Some? ==> IsNumeral(s) && IntMin <= r.value <= IntMax
    ensures r == if IsNumeral(s) && Fits(NumeralValue(s)) then Some(NumeralValue(s)) else None
  {
    if |s| == 0 then None
    else if s[0] < '0' then
      if |s| == 1 then None
      else if s[0] == '-' then (if AllDigits(s[1..]) then InIntRange(-(DigitsValue(s[1..]) as int)) else None)
      else if s[0] == '+' then (if AllDigits(s[1..]) then InIntRange(DigitsValue(s[1..])) else None)
      else None
    else if AllDigits(s) then InIntRange(DigitsValue(s))
    else None
  }

  /** `input.text.toString().toIntOrNull() ?: 0`: the typed number when it is a numeral
      that fits an `Int`, and 0 for any other text (empty, a bare sign, a stray
      character). */
  function ParseCount(text: string): (n: int)
    ensures IntMin <= n <= IntMax
    ensures !IsNumeral(text) ==> n == 0
    ensures IsNumeral(text) ==> n == if Fits(NumeralValue(text)) then NumeralValue(text) else 0
  {
    ToIntOrNull(text).GetOr(0)
  }

  /** The decimal rendering of a natural number, as `Int.toString()` writes it. */
  function Decimal(n: nat): (s: string)
    ensures |s| >= 1 && AllDigits(s)
  {
    if n < 10 then [('0' as int + n) as char]
    else Decimal(n / 10) + [('0' as int + n % 10) as char]
  }

  lemma {:induction false} DecimalValue(n: nat)
    ensures DigitsValue(Decimal(n)) == n
  {
    if n >= 10 {
      DecimalValue(n / 10);
      var s := Decimal(n);
      assert s[..|s| - 1] == Decimal(n / 10);
    }
  }

  /** Reading back the decimal rendering of any non-negative `Int` gives that `Int`. */
  lemma DecimalRoundTrip(n: nat)
    requires n <= IntMax
    ensures ToIntOrNull(Decimal(n)) == Some(n)
  {
    DecimalValue(n);
  }

  /** A minus sign before the rendering of `n` reads back as `-n`, down to `Int.MIN_VALUE`. */
  lemma NegativeRoundTrip(n: nat)
    requires 1 <= n <= -IntMin
    ensures ToIntOrNull("-" + Decimal(n)) == Some(-(n as int))
  {
    DecimalValue(n);
    var s := "-" + Decimal(n);
    assert s[1..] == Decimal(n);
  }

  /** The decimal rendering of a number past `Int.MAX_VALUE` reads back as nothing, and
      so as a count of 0. */
  lemma OverflowCountsZero(n: nat)
    requires n > IntMax
    ensures ToIntOrNull(Decimal(n)) == None
    ensures ParseCount(Decimal(n)) == 0
  {
    DecimalValue(n);
  }

  /** Leading zeros do not change the value of a run of digits. */
  lemma {:induction false} LeadingZeroValue(s: string)
    requires AllDigits(s)
    ensures AllDigits("0" + s) && DigitsValue("0" + s) == DigitsValue(s)
    decreases |s|
  {
    var t := "0" + s;
    assert AllDigits(t) by {
      forall k | 0 <= k < |t| ensures IsDigit(t[k]) {
        if k > 0 { assert t[k] == s[k - 1]; }
      }
    }
    if s != [] {
      var init := s[..|s| - 1];
      LeadingZeroValue(init);
      assert t[..|t| - 1] == "0" + init;
      assert t[|t| - 1] == s[|s| - 1];
    }
  }

  /** A leading `0` or a `+` sign before the digits reads as the digits alone: `007` and
      `+7` are both read as 7, and a count typed that way is that number. */
  lemma LeadingZeroOrPlus(digits: string)
    requires |digits| >= 1 && AllDigits(digits)
    ensures ToIntOrNull("0" + digits) == ToIntOrNull(digits)
    ensures ToIntOrNull("+" + digits) == ToIntOrNull(digits)
  {
    LeadingZeroValue(digits);
    assert ("+" + digits)[1..] == digits;
  }
}
