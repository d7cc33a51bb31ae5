/** Fixed-point amounts as the renderer handles them with Python's `decimal`
    module: `dec` (quantize to cents, rounding half up), the `:,.Nf` format
    (which rounds half to even) and `br_currency`, which turns the
    US-style grouping into the Brazilian one (period for thousands, comma for
    decimals). */
module Decimals {

  import opened Base
  import opened Text

  /** A finite Python `Decimal` with a non-positive exponent: its value is
      (-1)^neg * coef / 10^exp. The sign is kept apart from the coefficient,
      as Python keeps it, so that a negative zero such as `-0.00` exists. */
  datatype Decimal = Decimal(neg: bool, coef: nat, exp: nat)

  /** The two `InvalidOperation` conditions the model can reach: text that is
      not a number, and a quantized coefficient longer than the context's
      precision. */
  datatype DecimalError = ConversionSyntax | PrecisionExceeded

  /** The argument of `dec`: `None`, a `Decimal`, or anything else, which
      `dec` converts through `str`; every call site passes text. */
  datatype DecArg = NoArg | DecimalArg(d: Decimal) | TextArg(s: string)

  datatype Rounding = HalfUp | HalfEven

  /** `Decimal("0.00")`. */
  const Zero: Decimal := Decimal(false, 0, 2)

  /** Digits of precision of Python's default decimal context. */
  const Precision: nat := 28

  function Pow10(n: nat): (p: nat)
    ensures p >= 1
  {
    if n == 0 then 1 else 10 * Pow10(n - 1)
  }

  function Abs(x: int): nat { if x < 0 then -x else x }

  predicate IsPositive(d: Decimal) { !d.neg && d.coef > 0 }

  // ---------------------------------------------------------------------
  // Digit strings
  // ---------------------------------------------------------------------

  function DigitChar(n: nat): (c: char)
    requires n < 10
    ensures IsDigit(c)
  {
    ('0' as int + n) as char
  }

  function DigitValue(c: char): (n: nat)
    requires IsDigit(c)
    ensures n < 10 && DigitChar(n) == c
  {
    c as int - '0' as int
  }

  /** The number a string of digits denotes (leading zeros allowed). */
  function DigitsValue(s: string): nat
    requires AllDigits(s)
  {
    if s == [] then 0 else DigitsValue(s[..|s| - 1]) * 10 + DigitValue(s[|s| - 1])
  }

  /** Decimal notation of `n` without leading zeros (`"0"` for zero). */
  function NatToString(n: nat): (s: string)
    ensures AllDigits(s) && s != []
  {
    if n < 10 then [DigitChar(n)] else NatToString(n / 10) + [DigitChar(n % 10)]
  }

  function Zeros(k: nat): (s: string)
    ensures |s| == k && AllDigits(s)
  {
    if k == 0 then "" else "0" + Zeros(k - 1)
  }

  /** The digits of `coef` padded on the left with zeros to at least
      `places + 1` digits, so that one digit stands before the point. */
  function CoefDigits(coef: nat, places: nat): (s: string)
    ensures AllDigits(s) && |s| > places
  {
    Pad(NatToString(coef), places + 1)
  }

  /** `ds` with zeros added on the left up to `width` digits. */
  function Pad(ds: string, width: nat): (s: string)
    requires AllDigits(ds)
    ensures AllDigits(s) && |s| >= width && |s| >= |ds|
  {
    Zeros(if |ds| >= width then 0 else width - |ds|) + ds
  }

  /** The digits before the point of `coef / 10^places`. */
  function IntDigits(coef: nat, places: nat): (s: string)
    ensures AllDigits(s) && s != []
  {
    var ds := CoefDigits(coef, places);
    ds[..|ds| - places]
  }

  /** The `places` digits after the point of `coef / 10^places`. */
  function FracDigits(coef: nat, places: nat): (s: string)
    ensures AllDigits(s) && |s| == places
  {
    var ds := CoefDigits(coef, places);
    ds[|ds| - places..]
  }

  /** Number of digits that start `s`. */
  function DigitRun(s: string): (n: nat)
    ensures n <= |s| && AllDigits(s[..n])
    ensures n < |s| ==> !IsDigit(s[n])
  {
    if s == [] || !IsDigit(s[0]) then 0
    else
      var m := DigitRun(s[1..]);
      assert s[..1 + m] == [s[0]] + s[1..][..m];
      1 + m
  }

  lemma {:induction false} DigitsValueAppend(a: string, b: string)
    requires AllDigits(a) && AllDigits(b)
    ensures AllDigits(a + b)
    ensures DigitsValue(a + b) == DigitsValue(a) * Pow10(|b|) + DigitsValue(b)
  {
    if b == [] {
      assert a + b == a;
    } else {
      var b' := b[..|b| - 1];
      assert (a + b)[..|a + b| - 1] == a + b';
      DigitsValueAppend(a, b');
      ShiftDigit(DigitsValue(a), Pow10(|b'|), DigitsValue(b'), DigitValue(b[|b| - 1]));
    }
  }

  lemma ShiftDigit(x: int, p: int, y: int, k: int)
    ensures (x * p + y) * 10 + k == x * (p * 10) + (y * 10 + k)
  {
  }

  lemma {:induction false} NatToStringValue(n: nat)
    ensures DigitsValue(NatToString(n)) == n
  {
    if n >= 10 {
      NatToStringValue(n / 10);
      var s := NatToString(n);
      assert s[..|s| - 1] == NatToString(n / 10);
    }
  }

  lemma {:induction false} ZerosValue(k: nat)
    ensures DigitsValue(Zeros(k)) == 0
  {
    if k > 0 {
      ZerosValue(k - 1);
      DigitsValueAppend("0", Zeros(k - 1));
      assert DigitsValue("0") == 0 by {
        assert "0"[..0] == "";
      }
    }
  }

  lemma CoefDigitsValue(coef: nat, places: nat)
    ensures DigitsValue(CoefDigits(coef, places)) == coef
  {
    PadValue(NatToString(coef), places + 1);
    NatToStringValue(coef);
  }

  lemma PadValue(ds: string, width: nat)
    requires AllDigits(ds)
    ensures DigitsValue(Pad(ds, width)) == DigitsValue(ds)
  {
    LeadingZerosValue(if |ds| >= width then 0 else width - |ds|, ds);
  }

  /** Leading zeros do not change the value of a digit string. */
  lemma LeadingZerosValue(k: nat, ds: string)
    requires AllDigits(ds)
    ensures DigitsValue(Zeros(k) + ds) == DigitsValue(ds)
  {
    DigitsValueAppend(Zeros(k), ds);
    var z, p := DigitsValue(Zeros(k)), Pow10(|ds|);
    assert z == 0 by {
      ZerosValue(k);
    }
    assert z * p == 0;
  }

  /** Splitting the padded digits at the point loses nothing. */
  lemma SplitDigitsValue(coef: nat, places: nat)
    ensures DigitsValue(IntDigits(coef, places) + FracDigits(coef, places)) == coef
  {
    var cd := CoefDigits(coef, places);
    assert IntDigits(coef, places) + FracDigits(coef, places) == cd;
    CoefDigitsValue(coef, places);
  }

  // ---------------------------------------------------------------------
  // Conversion from text
  // ---------------------------------------------------------------------

  /** Python `Decimal(s)` for plain notation: surrounding whitespace is
      ignored, then an optional sign, digits, and an optional point followed
      by digits, with at least one digit in all. Anything else raises. */
  function Parse(s: string): Option<Decimal>
  {
    var t := Strip(s);
    if t != [] && t[0] == '-' then ParseUnsigned(t[1..], true)
    else if t != [] && t[0] == '+' then ParseUnsigned(t[1..], false)
    else ParseUnsigned(t, false)
  }

  /** The part of `Parse` after the sign. */
  function ParseUnsigned(body: string, neg: bool): Option<Decimal>
  {
    var n := DigitRun(body);
    var rest := body[n..];
    if rest == [] then
      if n > 0 then Some(Decimal(neg, DigitsValue(body[..n]), 0)) else None
    else if rest[0] == '.' && AllDigits(rest[1..]) && (n > 0 || |rest| > 1) then
      DigitsValueAppend(body[..n], rest[1..]);
      Some(Decimal(neg, DigitsValue(body[..n] + rest[1..]), |rest| - 1))
    else None
  }

  /** Plain positional notation of a decimal: sign, integer digits, and the
      fractional digits after a point when there are any. */
  function Plain(d: Decimal): (s: string)
    ensures s != []
  {
    (if d.neg then "-" else "")
    + (IntDigits(d.coef, d.exp) + (if d.exp > 0 then "." + FracDigits(d.coef, d.exp) else ""))
  }

  lemma ParseUnsignedNumeral(ip: string, fp: string, fd: string, neg: bool)
    requires AllDigits(ip) && ip != [] && AllDigits(fd)
    requires fp == "" || fp == "." + fd
    requires fp == "" ==> fd == ""
    ensures AllDigits(ip + fd)
    ensures ParseUnsigned(ip + fp, neg) == Some(Decimal(neg, DigitsValue(ip + fd), |fd|))
  {
    var body := ip + fp;
    DigitsValueAppend(ip, fd);
    DigitRunPrefix(ip, fp);
    assert body[..|ip|] == ip && body[|ip|..] == fp;
    if fp != "" {
      assert fp[1..] == fd;
    } else {
      assert ip + fd == ip;
    }
  }

  lemma TrimmedNumeral(sign: string, body: string)
    requires sign == "" || sign == "-"
    requires body != [] && IsDigit(body[0]) && IsDigit(body[|body| - 1])
    ensures Trimmed(sign + body)
  {
    var s := sign + body;
    assert s[0] == (if sign == "-" then '-' else body[0]);
    assert s[|s| - 1] == body[|body| - 1];
  }

  lemma ParseNegative(s: string, body: string)
    requires Strip(s) == s && s == "-" + body
    ensures Parse(s) == ParseUnsigned(body, true)
  {
    assert s[1..] == body;
  }

  lemma ParseUnsignedDigitFirst(s: string)
    requires Strip(s) == s && s != [] && IsDigit(s[0])
    ensures Parse(s) == ParseUnsigned(s, false)
  {
  }

  lemma ParseSigned(sign: string, body: string)
    requires sign == "" || sign == "-"
    requires body != [] && IsDigit(body[0]) && IsDigit(body[|body| - 1])
    ensures Parse(sign + body) == ParseUnsigned(body, sign == "-")
  {
    TrimmedNumeral(sign, body);
    StripTrimmed(sign + body);
    if sign == "-" {
      ParseNegative(sign + body, body);
    } else {
      assert sign + body == body;
      ParseUnsignedDigitFirst(body);
    }
  }

  /** What `Parse` makes of a sign, a non-empty run of digits and an
      optional point followed by digits. */
  lemma ParseNumeral(sign: string, ip: string, fd: string, point: bool)
    requires sign == "" || sign == "-"
    requires AllDigits(ip) && ip != [] && AllDigits(fd)
    requires point ==> fd != []
    requires !point ==> fd == ""
    ensures AllDigits(ip + fd)
    ensures Parse(sign + (ip + (if point then "." + fd else "")))
         == Some(Decimal(sign == "-", DigitsValue(ip + fd), |fd|))
  {
    var fp := if point then "." + fd else "";
    var body := ip + fp;
    assert body[0] == ip[0];
    assert body[|body| - 1] == (if point then fd[|fd| - 1] else ip[|ip| - 1]);
    ParseSigned(sign, body);
    ParseUnsignedNumeral(ip, fp, fd, sign == "-");
  }

  /** Parsing gives back any decimal written in plain notation, including its
      number of fractional digits and its sign. */
  lemma ParsePlain(d: Decimal)
    ensures Parse(Plain(d)) == Some(d)
  {
    var sign := if d.neg then "-" else "";
    ParseNumeral(sign, IntDigits(d.coef, d.exp), FracDigits(d.coef, d.exp), d.exp > 0);
    SplitDigitsValue(d.coef, d.exp);
  }

  lemma {:induction false} DigitRunPrefix(ds: string, rest: string)
    requires AllDigits(ds)
    requires rest == [] || !IsDigit(rest[0])
    ensures DigitRun(ds + rest) == |ds|
  {
    if ds != [] {
      assert (ds + rest)[1..] == ds[1..] + rest;
      DigitRunPrefix(ds[1..], rest);
    } else {
      assert ds + rest == rest;
    }
  }

  // ---------------------------------------------------------------------
  // Rounding
  // ---------------------------------------------------------------------

  /** `n / p` rounded to an integer: within half of `p` of `n`, with ties
      resolved by `mode`. */
  function RoundDiv(n: nat, p: nat, mode: Rounding): (c: nat)
    requires p >= 1
    ensures 2 * Abs(c * p - n) <= p
    ensures 2 * (n % p) == p ==>
      (mode == HalfUp ==> c * p > n) && (mode == HalfEven ==> c % 2 == 0)
  {
    var q, rem := n / p, n % p;
    DivMod(n, p);
    RoundStep(n, p, q, rem, mode);
    if RoundsUp(q, rem, p, mode) then q + 1 else q
  }

  lemma DivMod(n: nat, p: nat)
    requires p >= 1
    ensures n == (n / p) * p + n % p && 0 <= n % p < p && n / p >= 0
  {
  }

  /** Whether a quotient `q` with remainder `rem` out of `p` rounds up. */
  predicate RoundsUp(q: int, rem: int, p: int, mode: Rounding)
  {
    match mode
    case HalfUp => 2 * rem >= p
    case HalfEven => 2 * rem > p || (2 * rem == p && q % 2 == 1)
  }

  lemma RoundStep(n: int, p: int, q: int, rem: int, mode: Rounding)
    requires n == q * p + rem && 0 <= rem < p
    ensures var c := if RoundsUp(q, rem, p, mode) then q + 1 else q;
      2 * Abs(c * p - n) <= p
      && (2 * rem == p ==> (mode == HalfUp ==> c * p > n) && (mode == HalfEven ==> c % 2 == 0))
  {
    var up := RoundsUp(q, rem, p, mode);
    var c := if up then q + 1 else q;
    assert c * p - n == (if up then p - rem else -rem) by {
      if up {
        assert (q + 1) * p == q * p + p;
      }
    }
  }

  /** Rounds (or pads) `d` to exactly `places` fractional digits. Rounding
      works on the magnitude, so ties under `HalfUp` go away from zero. */
  function Rescale(d: Decimal, places: nat, mode: Rounding): (r: Decimal)
    ensures r.exp == places && r.neg == d.neg
    ensures d.exp <= places ==> r.coef == d.coef * Pow10(places - d.exp)
    ensures d.exp > places ==>
      // within half a unit of the last kept place
      2 * Abs(r.coef * Pow10(d.exp - places) - d.coef) <= Pow10(d.exp - places)
    ensures d.exp > places && 2 * (d.coef % Pow10(d.exp - places)) == Pow10(d.exp - places) ==>
      // an exact tie: half up moves away from zero, half even lands on an even digit
      (mode == HalfUp ==> r.coef * Pow10(d.exp - places) > d.coef)
      && (mode == HalfEven ==> r.coef % 2 == 0)
  {
    if d.exp <= places then Decimal(d.neg, d.coef * Pow10(places - d.exp), places)
    else Decimal(d.neg, RoundDiv(d.coef, Pow10(d.exp - places), mode), places)
  }

  /** `d.quantize(Decimal("0.01"), rounding=ROUND_HALF_UP)`, which raises
      when the result needs more digits than the context's precision. */
  function Quantize(d: Decimal): (r: Result<Decimal, DecimalError>)
    ensures r.Ok? <==> Rescale(d, 2, HalfUp).coef < Pow10(Precision)
    ensures r.Ok? ==> r.value == Rescale(d, 2, HalfUp)
    ensures r.Err? ==> r.error == PrecisionExceeded
  {
    var q := Rescale(d, 2, HalfUp);
    if q.coef < Pow10(Precision) then Ok(q) else Err(PrecisionExceeded)
  }

  /** `dec(v)`: `None` becomes 0.00, a `Decimal` is returned unchanged, and
      text is converted and quantized to cents, rounding half up. */
  function Dec(v: DecArg): (r: Result<Decimal, DecimalError>)
    ensures v.NoArg? ==> r == Ok(Zero)
    ensures v.DecimalArg? ==> r == Ok(v.d)
    ensures v.TextArg? && Parse(v.s).None? ==> r == Err(ConversionSyntax)
    ensures v.TextArg? && Parse(v.s).Some? ==>
      var q := Rescale(Parse(v.s).value, 2, HalfUp);
      (r.Ok? <==> q.coef < Pow10(Precision)) && (r.Ok? ==> r.value == q)
      && (r.Err? ==> r.error == PrecisionExceeded)
  {
    match v
    case NoArg => Ok(Zero)
    case DecimalArg(d) => Ok(d)
    case TextArg(s) =>
      match Parse(s)
      case None => Err(ConversionSyntax)
      case Some(x) => Quantize(x)
  }

  /** `Decimal("0")` is zero with no fractional digits. */
  lemma ZeroParses()
    ensures Parse("0") == Some(Decimal(false, 0, 0))
  {
    ZeroPlain();
    ParsePlain(Decimal(false, 0, 0));
  }

  lemma ZeroPlain()
    ensures Plain(Decimal(false, 0, 0)) == "0"
  {
    assert DigitChar(0) == '0';
    assert NatToString(0) == "0";
    assert Zeros(0) == "";
    assert Pad("0", 1) == "0";
    assert IntDigits(0, 0) == "0";
  }

  /** Powers of ten grow with the exponent. */
  lemma {:induction false} Pow10Mono(a: nat, b: nat)
    requires a <= b
    ensures Pow10(a) <= Pow10(b)
    decreases b
  {
    if a < b {
      Pow10Mono(a, b - 1);
    }
  }

  /** A coefficient of at most nine digits is within the precision. */
  lemma NineDigitsFit()
    ensures Pow10(Precision) > 999999999
  {
    assert Pow10(3) == 1000;
    assert Pow10(6) == 1000000;
    assert Pow10(9) == 1000000000;
    Pow10Mono(9, Precision);
  }

  /** Appending a digit to a number appends its character. */
  lemma NatToStringStep(n: nat, k: nat)
    requires n >= 1 && k < 10
    ensures NatToString(10 * n + k) == NatToString(n) + [DigitChar(k)]
  {
    assert (10 * n + k) / 10 == n && (10 * n + k) % 10 == k;
  }
}
