/**
  The two Go library parsers the override lists rely on: `strconv.Atoi`
  (optional sign, decimal digits, 64-bit range) and `time.ParseDuration`,
  the latter restricted to whole-number components such as `10s` or `1h30m`.
  Durations are `time.Duration` values: signed 64-bit counts of nanoseconds.
 */
module Numbers {
  import opened Wrappers

  datatype ParseError =
    | SyntaxError(input: string)
    | RangeError(input: string)
    | InvalidDuration(input: string)

  const MinInt64: int := -0x8000_0000_0000_0000
  const MaxInt64: int := 0x7FFF_FFFF_FFFF_FFFF
  const MaxUint64: int := 0xFFFF_FFFF_FFFF_FFFF

  predicate IsInt64(n: int) { MinInt64 <= n <= MaxInt64 }

  predicate IsDigit(c: char) { '0' <= c <= '9' }

  predicate AllDigits(s: string) { forall i :: 0 <= i < |s| ==> IsDigit(s[i]) }

  function DigitValue(c: char): (d: nat)
    requires IsDigit(c)
    ensures d < 10
  {
    c as int - '0' as int
  }

  function Digit(d: nat): (c: char)
    requires d < 10
    ensures IsDigit(c) && DigitValue(c) == d
  {
    ('0' as int + d) as char
  }

  /** The value of a run of decimal digits, most significant first. */
  function DecimalValue(ds: string): nat
    requires AllDigits(ds)
  {
    if ds == [] then 0 else DecimalValue(ds[..|ds| - 1]) * 10 + DigitValue(ds[|ds| - 1])
  }

  /** The decimal digits of `n` without leading zeros (`strconv.Itoa` for `n >= 0`). */
  function Digits(n: nat): (ds: string)
    ensures |ds| >= 1 && AllDigits(ds)
  {
    if n < 10 then [Digit(n)] else Digits(n / 10) + [Digit(n % 10)]
  }

  /** `strconv.Itoa`. */
  function FormatInt(n: int): string
  {
    if n < 0 then "-" + Digits(-n) else Digits(n)
  }

  /** The text after an optional leading `+` or `-`. */
  function Unsigned(s: string): (body: string)
    ensures |body| <= |s|
  {
    if |s| > 0 && (s[0] == '+' || s[0] == '-') then s[1..] else s
  }

  /**
    `strconv.Atoi`: an optional `+` or `-`, then one or more decimal digits,
    leading zeros allowed, and the value must fit in 64 bits. The digits are
    read left to right, and a run of digits whose value passes the unsigned
    64-bit maximum is a range error before any later non-digit is reached
    (`strconv.ParseUint`). Inputs shorter than 19 characters take Go's fast
    path, which has no such check; their digit runs are too short to reach
    that maximum, so the one definition covers both paths.
   */
  function Atoi(s: string): (r: Result<int, ParseError>)
    ensures r.Ok? ==> IsInt64(r.value)
    ensures r.Err? ==> r.error in {SyntaxError(s), RangeError(s)}
  {
    var body := Unsigned(s);
    var run := body[..LeadingDigits(body)];
    if DecimalValue(run) > MaxUint64 then Err(RangeError(s))
    else if body == [] || !AllDigits(body) then Err(SyntaxError(s))
    else
      var v := if s[0] == '-' then -(DecimalValue(body) as int) else DecimalValue(body);
      if IsInt64(v) then Ok(v) else Err(RangeError(s))
  }

  /** A text made only of digits is one whole digit run. */
  lemma WholeRun(ds: string)
    requires AllDigits(ds)
    ensures ds[..LeadingDigits(ds)] == ds
  {
    LeadingDigitsOf(ds, []);
    assert ds + [] == ds;
  }

  lemma {:induction false} DecimalValueOfDigits(n: nat)
    ensures DecimalValue(Digits(n)) == n
  {
    if n >= 10 {
      var ds := Digits(n);
      DecimalValueOfDigits(n / 10);
      assert ds[..|ds| - 1] == Digits(n / 10);
    }
  }

  /** Parsing what `strconv.Itoa` prints gives the number back. */
  lemma AtoiFormatInt(n: int)
    requires IsInt64(n)
    ensures Atoi(FormatInt(n)) == Ok(n)
  {
    var s := FormatInt(n);
    if n < 0 {
      var ds := Digits(-n);
      DecimalValueOfDigits(-n);
      assert s[0] == '-' && s[1..] == ds;
      WholeRun(ds);
    } else {
      DecimalValueOfDigits(n);
      assert IsDigit(s[0]);
      WholeRun(s);
    }
  }

  /** An explicit `+` sign is accepted and changes nothing. */
  lemma AtoiPlusSign(n: nat)
    requires n <= MaxInt64
    ensures Atoi("+" + Digits(n)) == Ok(n)
  {
    DecimalValueOfDigits(n);
    assert ("+" + Digits(n))[1..] == Digits(n);
    WholeRun(Digits(n));
  }

  /** Text that is not sign-then-digits, such as `abc` or a lone `-`, is a syntax error. */
  lemma AtoiRejects(s: string)
    requires s == [] || (s[0] != '+' && s[0] != '-' && !IsDigit(s[0])) || s == "-" || s == "+"
    ensures Atoi(s) == Err(SyntaxError(s))
  {
  }

  /**
    A run of digits too large for an unsigned 64-bit value is a range error,
    whatever non-digit text follows it and whatever the sign.
   */
  lemma AtoiOverflowFirst(sign: string, ds: string, rest: string)
    requires sign == "" || sign == "+" || sign == "-"
    requires AllDigits(ds) && DecimalValue(ds) > MaxUint64
    requires rest == [] || !IsDigit(rest[0])
    ensures Atoi(sign + ds + rest) == Err(RangeError(sign + ds + rest))
  {
    var body := ds + rest;
    var s := sign + ds + rest;
    assert s == sign + body;
    OverflowingRun(ds, rest);
    UnsignedOf(sign, body);
    AtoiRunOverflow(s);
  }

  /** The range error Atoi reports when the leading digit run overflows. */
  lemma AtoiRunOverflow(s: string)
    requires DecimalValue(Unsigned(s)[..LeadingDigits(Unsigned(s))]) > MaxUint64
    ensures Atoi(s) == Err(RangeError(s))
  {
  }

  lemma UnsignedOf(sign: string, body: string)
    requires sign == "" || sign == "+" || sign == "-"
    requires |body| > 0 && IsDigit(body[0])
    ensures Unsigned(sign + body) == body
  {
    if sign != "" {
      assert (sign + body)[1..] == body;
    }
  }

  lemma OverflowingRun(ds: string, rest: string)
    requires AllDigits(ds) && DecimalValue(ds) > MaxUint64
    requires rest == [] || !IsDigit(rest[0])
    ensures var body := ds + rest;
            |body| > 0 && IsDigit(body[0]) && DecimalValue(body[..LeadingDigits(body)]) > MaxUint64
  {
    var body := ds + rest;
    assert |ds| > 0 by { assert DecimalValue(ds) != 0; }
    assert body[0] == ds[0];
    LeadingDigitsOf(ds, rest);
    assert body[..|ds|] == ds;
  }

  /** The value of a digit run is at least its first digit times the place value of that digit. */
  lemma {:induction false} DecimalValueAtLeast(ds: string)
    requires AllDigits(ds) && |ds| > 0
    ensures DecimalValue(ds) >= DigitValue(ds[0]) * Pow10(|ds| - 1)
  {
    if |ds| > 1 {
      var init := ds[..|ds| - 1];
      DecimalValueAtLeast(init);
      assert init[0] == ds[0];
    }
  }

  /** A run of n digits is worth less than 10^n. */
  lemma {:induction false} DecimalValueBelow(ds: string)
    requires AllDigits(ds)
    ensures DecimalValue(ds) < Pow10(|ds|)
  {
    if ds != [] {
      DecimalValueBelow(ds[..|ds| - 1]);
    }
  }

  /**
    Inputs shorter than 19 characters, which Go parses on its fast path
    without an overflow check, never reach the range error for the digit run.
   */
  lemma ShortInputNoOverflow(s: string)
    requires |s| < 19
    ensures var body := if |s| > 0 && (s[0] == '+' || s[0] == '-') then s[1..] else s;
            DecimalValue(body[..LeadingDigits(body)]) <= MaxUint64
  {
    var body := Unsigned(s);
    var run := body[..LeadingDigits(body)];
    DecimalValueBelow(run);
    Pow10Monotone(|run|, 18);
    assert Pow10(6) == 1_000_000;
    assert Pow10(12) == 1_000_000_000_000;
    assert Pow10(18) == 1_000_000_000_000_000_000;
  }

  lemma {:induction false} Pow10Monotone(m: nat, n: nat)
    requires m <= n
    ensures Pow10(m) <= Pow10(n)
  {
    if m < n {
      Pow10Monotone(m, n - 1);
    }
  }

  function Pow10(n: nat): (p: nat)
    ensures p >= 1
  {
    if n == 0 then 1 else 10 * Pow10(n - 1)
  }

  /** Twenty nines overflow before the trailing `x` is looked at. */
  lemma AtoiOverflowExample()
    ensures Atoi("99999999999999999999x") == Err(RangeError("99999999999999999999x"))
  {
    var ds := "99999999999999999999";
    DecimalValueAtLeast(ds);
    assert Pow10(6) == 1_000_000;
    assert Pow10(12) == 1_000_000_000_000;
    assert Pow10(18) == 1_000_000_000_000_000_000;
    AtoiOverflowFirst("", ds, "x");
    assert "" + ds + "x" == "99999999999999999999x";
  }

  // Durations (nanoseconds)

  const Nanosecond: int := 1
  const Microsecond: int := 1000 * Nanosecond
  const Millisecond: int := 1000 * Microsecond
  const Second: int := 1000 * Millisecond
  const Minute: int := 60 * Second
  const Hour: int := 60 * Minute

  /** The unit suffixes `time.ParseDuration` knows, and their length in nanoseconds. */
  function UnitValue(u: string): Option<nat>
  {
    if u == "ns" then Some(Nanosecond)
    else if u == "us" || u == "\U{00B5}s" || u == "\U{03BC}s" then Some(Microsecond)
    else if u == "ms" then Some(Millisecond)
    else if u == "s" then Some(Second)
    else if u == "m" then Some(Minute)
    else if u == "h" then Some(Hour)
    else None
  }

  /** Length of the run of digits `s` starts with. */
  function LeadingDigits(s: string): (n: nat)
    ensures n <= |s| && AllDigits(s[..n])
    ensures n < |s| ==> !IsDigit(s[n])
  {
    if s == [] || !IsDigit(s[0]) then 0 else 1 + LeadingDigits(s[1..])
  }

  /** Length of the unit `s` starts with: the run of characters that are neither digits nor `.`. */
  function LeadingUnit(s: string): (n: nat)
    ensures n <= |s|
    ensures forall i :: 0 <= i < n ==> !IsDigit(s[i]) && s[i] != '.'
    ensures n < |s| ==> IsDigit(s[n]) || s[n] == '.'
  {
    if s == [] || IsDigit(s[0]) || s[0] == '.' then 0 else 1 + LeadingUnit(s[1..])
  }

  /**
    The component `s` starts with, `<digits><unit>`: its value in nanoseconds
    and its length; None when `s` does not start with one.
   */
  function Component(s: string): (c: Option<(int, nat)>)
    ensures c.Some? ==> 0 <= c.value.0 && 0 < c.value.1 <= |s|
  {
    var d := LeadingDigits(s);
    var u := LeadingUnit(s[d..]);
    var unit := UnitValue(s[d..d + u]);
    if d == 0 || unit.None? then None
    else Some((DecimalValue(s[..d]) * unit.value, d + u))
  }

  /**
    The total, in nanoseconds, of a non-empty sequence of components, or None
    when the text is not such a sequence.
   */
  function Magnitude(s: string): (r: Option<int>)
    ensures r.Some? ==> r.value >= 0
    decreases |s|
  {
    match Component(s)
    case None => None
    case Some((v, n)) =>
      if n == |s| then Some(v)
      else
        var w := Magnitude(s[n..]);
        if w.None? then None else Some(v + w.value)
  }

  /**
    `time.ParseDuration` on whole-number components: an optional sign, then
    either `0` alone or components such as `10s`, `1h30m`, `250ms`; the total
    must fit in a 64-bit `time.Duration`.
   */
  function ParseDuration(s: string): (r: Result<int, ParseError>)
    ensures r.Ok? ==> IsInt64(r.value)
    ensures r.Err? ==> r.error == InvalidDuration(s)
  {
    var neg := |s| > 0 && s[0] == '-';
    var body := if |s| > 0 && (s[0] == '+' || s[0] == '-') then s[1..] else s;
    if body == "0" then Ok(0)
    else
      match Magnitude(body)
      case None => Err(InvalidDuration(s))
      case Some(m) =>
        if neg && m <= -MinInt64 then Ok(-m)
        else if !neg && m <= MaxInt64 then Ok(m)
        else Err(InvalidDuration(s))
  }

  lemma LeadingDigitsOf(ds: string, rest: string)
    requires AllDigits(ds)
    requires rest == [] || !IsDigit(rest[0])
    ensures LeadingDigits(ds + rest) == |ds|
  {
    var s := ds + rest;
    assert forall i :: 0 <= i < |ds| ==> s[i] == ds[i];
    assert rest != [] ==> s[|ds|] == rest[0];
  }

  /** Every known unit is a non-empty run of characters that are neither digits nor `.`. */
  lemma UnitShape(u: string)
    requires UnitValue(u).Some?
    ensures |u| >= 1 && LeadingUnit(u) == |u|
  {
    if u == "ns" || u == "us" || u == "ms" || u == "\U{00B5}s" || u == "\U{03BC}s" {
      assert !IsDigit(u[0]) && u[0] != '.' && u[1..] == "s";
    } else {
      assert u == "s" || u == "m" || u == "h";
    }
  }

  lemma ComponentOf(n: nat, u: string)
    requires UnitValue(u).Some?
    ensures Component(Digits(n) + u) == Some((n * UnitValue(u).value, |Digits(n)| + |u|))
  {
    var ds := Digits(n);
    var s := ds + u;
    UnitShape(u);
    LeadingDigitsOf(ds, u);
    assert s[|ds|..] == u && s[..|ds|] == ds;
    assert s[|ds|..|ds| + |u|] == u;
    DecimalValueOfDigits(n);
  }

  /** A number followed by a known unit parses to that many units. */
  lemma ParseDurationComponent(n: nat, u: string)
    requires UnitValue(u).Some?
    requires n * UnitValue(u).value <= MaxInt64
    ensures ParseDuration(Digits(n) + u) == Ok(n * UnitValue(u).value)
  {
    var s := Digits(n) + u;
    ComponentOf(n, u);
    assert Magnitude(s) == Some(n * UnitValue(u).value);
    assert s[0] == Digits(n)[0];
    assert s != "0";
  }
}
