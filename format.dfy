/** Writing amounts as text: the `:,.Nf` format of a `Decimal`, the
    separator swap of `br_currency` that turns it into Brazilian notation,
    and the quantity column. `ParseBr` reads Brazilian notation back and is
    the partner the round-trip lemmas use. */
module Format {

  import opened Base
  import opened Text
  import opened Decimals

  /** Groups a digit string in threes from the right with `sep` between the
      groups. */
  function Group(ds: string, sep: string): string
    decreases |ds|
  {
    if |ds| <= 3 then ds else Group(ds[..|ds| - 3], sep) + (sep + ds[|ds| - 3..])
  }

  /** A sign, integer digits grouped with `sep` and, when there are
      fractional digits, `point` followed by them. */
  function Layout(neg: bool, ip: string, fd: string, sep: string, point: string): string
  {
    (if neg then "-" else "") + (Group(ip, sep) + (if fd != [] then point + fd else ""))
  }

  /** `coef / 10^places` written US-style: commas between groups and a
      decimal point. */
  function UsText(neg: bool, coef: nat, places: nat): string
  {
    Layout(neg, IntDigits(coef, places), FracDigits(coef, places), ",", ".")
  }

  /** `coef / 10^places` in Brazilian notation: periods between groups and a
      decimal comma. */
  function BrText(neg: bool, coef: nat, places: nat): string
  {
    Layout(neg, IntDigits(coef, places), FracDigits(coef, places), ".", ",")
  }

  /** Python `f"{d:,.{places}f}"` for a `Decimal`: rounds half to even to
      `places` digits and writes a minus sign for any negative value,
      negative zero included. */
  function FormatFixed(d: Decimal, places: nat): string
  {
    UsText(d.neg, Rescale(d, places, HalfEven).coef, places)
  }

  /** The three chained replacements `s.replace(",", "X").replace(".", ",")
      .replace("X", ".")`. */
  function SwapSeparators(s: string): (r: string)
    ensures |r| == |s|
    ensures forall i :: 0 <= i < |s| ==> r[i] == SwapChar(s[i])
  {
    ReplaceChar(ReplaceChar(ReplaceChar(s, ',', 'X'), '.', ','), 'X', '.')
  }

  /** What the three replacements do to one character; an `X` already in the
      text also ends up as a period. */
  function SwapChar(c: char): char
  {
    if c == ',' || c == 'X' then '.' else if c == '.' then ',' else c
  }

  /** Text in Brazilian notation, as `br_currency` and the quantity column
      produce it: the US-style grouping with the separators swapped. */
  function BrFixed(d: Decimal, places: nat): string
  {
    SwapSeparators(FormatFixed(d, places))
  }

  /** The Brazilian form of `d` rounded half to even to `places` digits. */
  function BrForm(d: Decimal, places: nat): string
  {
    BrText(d.neg, Rescale(d, places, HalfEven).coef, places)
  }

  /** `br_currency(v)`: `dec(v)` formatted with two decimals in Brazilian
      notation; fails exactly when `dec` raises. */
  function BrCurrency(v: DecArg): (r: Result<string, DecimalError>)
    ensures r.Err? <==> Dec(v).Err?
    ensures r.Err? ==> r.error == Dec(v).error
    ensures r.Ok? ==> r.value == BrForm(Dec(v).value, 2)
  {
    match Dec(v)
    case Err(e) => Err(e)
    case Ok(d) =>
      BrFixedIsBrForm(d, 2);
      Ok(BrFixed(d, 2))
  }

  /** The quantity column: `Decimal(text or "0")` formatted with four
      decimals in Brazilian notation. It is not quantized first. */
  function QuantityText(t: string): (r: Result<string, DecimalError>)
    ensures r.Err? <==> Parse(if t == "" then "0" else t).None?
    ensures r.Ok? ==> r.value == BrForm(Parse(if t == "" then "0" else t).value, 4)
  {
    match Parse(if t == "" then "0" else t)
    case None => Err(ConversionSyntax)
    case Some(d) =>
      BrFixedIsBrForm(d, 4);
      Ok(BrFixed(d, 4))
  }

  // ---------------------------------------------------------------------
  // US style to Brazilian style
  // ---------------------------------------------------------------------

  lemma SwapSeparatorsAppend(a: string, b: string)
    ensures SwapSeparators(a + b) == SwapSeparators(a) + SwapSeparators(b)
  {
    var l, r := SwapSeparators(a + b), SwapSeparators(a) + SwapSeparators(b);
    assert |l| == |r|;
    forall i | 0 <= i < |l|
      ensures l[i] == r[i]
    {
      if i < |a| {
        assert (a + b)[i] == a[i];
      } else {
        assert (a + b)[i] == b[i - |a|];
      }
    }
  }

  lemma SwapSeparatorsChar(c: char)
    ensures SwapSeparators([c]) == [SwapChar(c)]
  {
    assert SwapSeparators([c])[0] == SwapChar(c);
  }

  lemma SwapSeparatorsDigits(s: string)
    requires AllDigits(s)
    ensures SwapSeparators(s) == s
  {
    var r := SwapSeparators(s);
    forall i | 0 <= i < |s|
      ensures r[i] == s[i]
    {
      assert IsDigit(s[i]);
    }
  }

  lemma {:induction false} SwapSeparatorsGroup(ds: string)
    requires AllDigits(ds)
    ensures SwapSeparators(Group(ds, ",")) == Group(ds, ".")
    decreases |ds|
  {
    if |ds| <= 3 {
      SwapSeparatorsDigits(ds);
    } else {
      var hi, lo := ds[..|ds| - 3], ds[|ds| - 3..];
      assert Group(ds, ",") == Group(hi, ",") + ("," + lo);
      assert Group(ds, ".") == Group(hi, ".") + ("." + lo);
      SwapSeparatorsGroup(hi);
      SwapCommaBefore(Group(hi, ","), lo);
    }
  }

  lemma SwapCommaBefore(g: string, lo: string)
    requires AllDigits(lo)
    ensures SwapSeparators(g + ("," + lo)) == SwapSeparators(g) + ("." + lo)
  {
    var t := "," + lo;
    assert SwapSeparators(t) == "." + lo by {
      SwapSeparatorsAppend(",", lo);
      SwapSeparatorsDigits(lo);
      SwapSeparatorsChar(',');
    }
    SwapSeparatorsAppend(g, t);
  }

  /** Swapping the separators of the US-style layout gives the Brazilian
      one: the digits stay, every comma between groups becomes a period and
      the decimal point becomes a comma. */
  lemma SwapLayout(neg: bool, ip: string, fd: string)
    requires AllDigits(ip) && AllDigits(fd)
    ensures SwapSeparators(Layout(neg, ip, fd, ",", ".")) == Layout(neg, ip, fd, ".", ",")
  {
    var sign := if neg then "-" else "";
    var tail := if fd != [] then "." + fd else "";
    var tail' := if fd != [] then "," + fd else "";
    assert SwapSeparators(sign) == sign by {
      if neg {
        SwapSeparatorsChar('-');
      }
    }
    assert SwapSeparators(tail) == tail' by {
      if fd != [] {
        SwapSeparatorsAppend(".", fd);
        SwapSeparatorsChar('.');
        SwapSeparatorsDigits(fd);
      }
    }
    SwapSeparatorsGroup(ip);
    SwapSeparatorsAppend(sign, Group(ip, ",") + tail);
    SwapSeparatorsAppend(Group(ip, ","), tail);
  }

  /** What `br_currency` computes with its three replacements is the
      Brazilian form written directly. */
  lemma BrFixedIsBrForm(d: Decimal, places: nat)
    ensures BrFixed(d, places) == BrForm(d, places)
  {
    var c := Rescale(d, places, HalfEven).coef;
    SwapLayout(d.neg, IntDigits(c, places), FracDigits(c, places));
  }

  // ---------------------------------------------------------------------
  // Reading Brazilian text back
  // ---------------------------------------------------------------------

  /** Reads Brazilian notation back: drop the thousands periods, turn the
      decimal comma into a point, and parse. */
  function ParseBr(s: string): Option<Decimal>
  {
    Parse(ReplaceChar(RemoveChar(s, '.'), ',', '.'))
  }

  lemma {:induction false} RemoveCharGroup(ds: string)
    requires AllDigits(ds)
    ensures RemoveChar(Group(ds, "."), '.') == ds
    decreases |ds|
  {
    if |ds| <= 3 {
      RemoveCharDigits(ds, '.');
    } else {
      var hi, lo := ds[..|ds| - 3], ds[|ds| - 3..];
      assert Group(ds, ".") == Group(hi, ".") + ("." + lo);
      RemoveCharGroup(hi);
      RemovePeriodBefore(Group(hi, "."), lo);
      assert hi + lo == ds;
    }
  }

  lemma RemovePeriodBefore(g: string, lo: string)
    requires AllDigits(lo)
    ensures RemoveChar(g + ("." + lo), '.') == RemoveChar(g, '.') + lo
  {
    var t := "." + lo;
    assert RemoveChar(t, '.') == lo by {
      RemoveCharAppend(".", lo, '.');
      RemoveCharDigits(lo, '.');
      RemoveCharSingle('.', '.');
    }
    RemoveCharAppend(g, t, '.');
  }

  /** Dropping the periods of the Brazilian layout leaves the sign, the
      digits and the decimal comma. */
  lemma LayoutWithoutPeriods(neg: bool, ip: string, fd: string)
    requires AllDigits(ip) && AllDigits(fd)
    ensures RemoveChar(Layout(neg, ip, fd, ".", ","), '.')
      == (if neg then "-" else "") + (ip + (if fd != [] then "," + fd else ""))
  {
    var sign := if neg then "-" else "";
    var tail := if fd != [] then "," + fd else "";
    assert RemoveChar(sign, '.') == sign by {
      if neg {
        RemoveCharSingle('-', '.');
      }
    }
    assert RemoveChar(tail, '.') == tail by {
      if fd != [] {
        RemoveCharAppend(",", fd, '.');
        RemoveCharDigits(fd, '.');
        RemoveCharSingle(',', '.');
      }
    }
    RemoveCharGroup(ip);
    RemoveCharAppend(sign, Group(ip, ".") + tail, '.');
    RemoveCharAppend(Group(ip, "."), tail, '.');
  }

  /** Reading the Brazilian layout back: periods out, comma to point. */
  lemma ReadLayout(neg: bool, ip: string, fd: string)
    requires AllDigits(ip) && ip != [] && AllDigits(fd)
    ensures AllDigits(ip + fd)
    ensures ParseBr(Layout(neg, ip, fd, ".", ","))
         == Some(Decimal(neg, DigitsValue(ip + fd), |fd|))
  {
    var sign := if neg then "-" else "";
    var tail := if fd != [] then "," + fd else "";
    var tail' := if fd != [] then "." + fd else "";
    LayoutWithoutPeriods(neg, ip, fd);
    assert ReplaceChar(sign, ',', '.') == sign by {
      if neg {
        ReplaceCharSingle('-', ',', '.');
      }
    }
    assert ReplaceChar(tail, ',', '.') == tail' by {
      if fd != [] {
        ReplaceCharAppend(",", fd, ',', '.');
        ReplaceCharDigits(fd, ',', '.');
        ReplaceCharSingle(',', ',', '.');
      }
    }
    ReplaceCharDigits(ip, ',', '.');
    ReplaceCharAppend(sign, ip + tail, ',', '.');
    ReplaceCharAppend(ip, tail, ',', '.');
    ParseNumeral(sign, ip, fd, fd != []);
  }

  /** Reading Brazilian text back gives the sign, the coefficient and the
      number of decimals it was written with. */
  lemma BrTextRoundTrip(neg: bool, coef: nat, places: nat)
    ensures ParseBr(BrText(neg, coef, places)) == Some(Decimal(neg, coef, places))
  {
    ReadLayout(neg, IntDigits(coef, places), FracDigits(coef, places));
    SplitDigitsValue(coef, places);
  }

  /** Formatting in Brazilian notation and reading the text back gives the
      value rounded half to even to `places` digits. */
  lemma BrFormRoundTrip(d: Decimal, places: nat)
    ensures ParseBr(BrForm(d, places)) == Some(Rescale(d, places, HalfEven))
  {
    var r := Rescale(d, places, HalfEven);
    BrTextRoundTrip(d.neg, r.coef, places);
    assert r == Decimal(d.neg, r.coef, places);
  }

  /** Rescaling a decimal to the number of places it already has changes
      nothing. */
  lemma RescaleSame(d: Decimal, mode: Rounding)
    ensures Rescale(d, d.exp, mode) == d
  {
  }

  /** `br_currency` of text: reading its output back gives the value of the
      text rounded half up to cents, which `Rescale` shows to be within half
      a cent of it (and equal to it when the text has at most two decimals). */
  lemma BrCurrencyRoundTrip(s: string)
    requires BrCurrency(TextArg(s)).Ok?
    ensures Parse(s).Some?
    ensures ParseBr(BrCurrency(TextArg(s)).value) == Some(Rescale(Parse(s).value, 2, HalfUp))
  {
    var q := Dec(TextArg(s)).value;
    BrFormRoundTrip(q, 2);
    RescaleSame(q, HalfEven);
  }

  /** The quantity column reads back as the quantity rounded half to even to
      four decimals. */
  lemma QuantityRoundTrip(t: string)
    requires QuantityText(t).Ok?
    ensures ParseBr(QuantityText(t).value) == Some(Rescale(Parse(if t == "" then "0" else t).value, 4, HalfEven))
  {
    BrFormRoundTrip(Parse(if t == "" then "0" else t).value, 4);
  }

  // ---------------------------------------------------------------------
  // The layout of an amount
  // ---------------------------------------------------------------------

  /** A period exactly at every fourth place from the right end and digits
      elsewhere. */
  predicate PeriodsEveryThree(g: string)
  {
    forall i :: 0 <= i < |g| ==> (g[i] == '.' <==> (|g| - 1 - i) % 4 == 3) && (g[i] != '.' ==> IsDigit(g[i]))
  }

  /** Grouping puts a period before every third digit counted from the
      right, and nowhere else. */
  lemma {:induction false} GroupShape(ds: string)
    requires AllDigits(ds)
    ensures var g := Group(ds, ".");
      |g| == (if ds == [] then 0 else |ds| + (|ds| - 1) / 3) && PeriodsEveryThree(g)
    decreases |ds|
  {
    if |ds| > 3 {
      var hi, lo := ds[..|ds| - 3], ds[|ds| - 3..];
      GroupShape(hi);
      PeriodBeforeGroup(Group(hi, "."), lo);
    }
  }

  /** Adding a group of three digits after a period keeps the pattern. */
  lemma PeriodBeforeGroup(gh: string, lo: string)
    requires PeriodsEveryThree(gh) && AllDigits(lo) && |lo| == 3
    ensures PeriodsEveryThree(gh + ("." + lo))
  {
    var g := gh + ("." + lo);
    forall i | 0 <= i < |g|
      ensures (g[i] == '.' <==> (|g| - 1 - i) % 4 == 3) && (g[i] != '.' ==> IsDigit(g[i]))
    {
      if i < |gh| {
        assert g[i] == gh[i] && |g| - 1 - i == (|gh| - 1 - i) + 4;
      } else if i > |gh| {
        assert g[i] == lo[i - |gh| - 1];
      }
    }
  }

  /** Brazilian notation with two decimals: a minus sign when `neg`, then
      the integer digits with a period before every third digit from the
      right, a decimal comma and exactly two digits. */
  predicate BrShaped(r: string, neg: bool)
  {
    var s := if neg then 1 else 0;
    |r| >= s + 4 && (neg ==> r[0] == '-')
    && r[|r| - 3] == ',' && IsDigit(r[|r| - 2]) && IsDigit(r[|r| - 1])
    && PeriodsEveryThree(r[s..|r| - 3])
  }

  lemma LayoutShape(neg: bool, ip: string, fd: string)
    requires AllDigits(ip) && ip != [] && AllDigits(fd) && |fd| == 2
    ensures BrShaped(Layout(neg, ip, fd, ".", ","), neg)
  {
    GroupShape(ip);
    var g := Group(ip, ".");
    var sign := if neg then "-" else "";
    var r := Layout(neg, ip, fd, ".", ",");
    assert r == sign + (g + ("," + fd));
    assert r[|sign|..|r| - 3] == g;
  }

  /** The text of `br_currency` is in Brazilian notation with two decimals,
      signed as the amount is. */
  lemma BrCurrencyShape(v: DecArg)
    requires BrCurrency(v).Ok?
    ensures BrShaped(BrCurrency(v).value, Dec(v).value.neg)
  {
    var d := Dec(v).value;
    var c := Rescale(d, 2, HalfEven).coef;
    assert BrCurrency(v).value == BrForm(d, 2);
    LayoutShape(d.neg, IntDigits(c, 2), FracDigits(c, 2));
  }

  // ---------------------------------------------------------------------
  // Examples
  // ---------------------------------------------------------------------

  /** `br_currency` of a text whose value rounds half up to `c` cents, `c`
      having at most nine digits: the grouped integer digits of `c`, a comma
      and its two last digits. */
  lemma CurrencyOfText(s: string, x: Decimal, c: nat, ip: string, fd: string, r: string)
    requires Plain(x) == s && Rescale(x, 2, HalfUp) == Decimal(false, c, 2) && c <= 999999999
    requires IntDigits(c, 2) == ip && FracDigits(c, 2) == fd && r == Group(ip, ".") + ("," + fd)
    ensures BrCurrency(TextArg(s)) == Ok(r)
  {
    ParsePlain(x);
    NineDigitsFit();
    var q := Decimal(false, c, 2);
    assert Dec(TextArg(s)) == Ok(q);
    RescaleSame(q, HalfEven);
    assert BrForm(q, 2) == BrText(false, c, 2);
    assert BrText(false, c, 2) == Layout(false, ip, fd, ".", ",");
    assert Layout(false, ip, fd, ".", ",") == "" + (Group(ip, ".") + ("," + fd));
    assert "" + (Group(ip, ".") + ("," + fd)) == r;
  }

  /** One period for a four-digit integer part. */
  lemma CurrencyThousands()
    ensures BrCurrency(TextArg("1234.5")) == Ok("1.234,50")
  {
    Digits12345();
    Plain12345();
    Cents123450();
    Group1234();
    RescaleUp(Decimal(false, 12345, 1));
    CurrencyOfText("1234.5", Decimal(false, 12345, 1), 123450, "1234", "50", "1.234,50");
  }

  /** Rescaling one decimal to two multiplies the coefficient by ten. */
  lemma RescaleUp(x: Decimal)
    requires x.exp == 1
    ensures Rescale(x, 2, HalfUp) == Decimal(x.neg, 10 * x.coef, 2)
  {
    assert Pow10(1) == 10;
  }

  lemma Digits12345()
    ensures NatToString(12345) == "12345" && NatToString(123450) == "123450"
  {
    assert NatToString(1) == "1";
    NatToStringStep(1, 2);
    NatToStringStep(12, 3);
    NatToStringStep(123, 4);
    NatToStringStep(1234, 5);
    NatToStringStep(12345, 0);
  }

  lemma Plain12345()
    requires NatToString(12345) == "12345"
    ensures Plain(Decimal(false, 12345, 1)) == "1234.5"
  {
    assert CoefDigits(12345, 1) == "12345";
  }

  lemma Cents123450()
    requires NatToString(123450) == "123450"
    ensures IntDigits(123450, 2) == "1234" && FracDigits(123450, 2) == "50"
  {
    assert CoefDigits(123450, 2) == "123450";
  }

  lemma Group1234()
    ensures Group("1234", ".") == "1.234"
  {
    assert "1234"[..1] == "1" && "1234"[1..] == "234";
  }

  /** Zero is written with two zero decimals. */
  lemma CurrencyZero()
    ensures BrCurrency(TextArg("0")) == Ok("0,00")
  {
    ZeroPlain();
    assert Pow10(2) == 100;
    assert NatToString(0) == "0";
    assert CoefDigits(0, 2) == "000";
    CurrencyOfText("0", Decimal(false, 0, 0), 0, "0", "00", "0,00");
  }

  /** Rounding half up to cents can carry into a new group of digits. */
  lemma CurrencyCarries()
    ensures BrCurrency(TextArg("999999.999")) == Ok("1.000.000,00")
  {
    Digits999999999();
    Plain999999999();
    RoundUp999999999();
    Digits100000000();
    Cents100000000();
    Group1000000();
    CurrencyOfText("999999.999", Decimal(false, 999999999, 3), 100000000, "1000000", "00", "1.000.000,00");
  }

  lemma Digits999999999()
    ensures NatToString(999999999) == "999999999"
  {
    assert NatToString(9) == "9";
    NatToStringStep(9, 9);
    NatToStringStep(99, 9);
    NatToStringStep(999, 9);
    NatToStringStep(9999, 9);
    NatToStringStep(99999, 9);
    NatToStringStep(999999, 9);
    NatToStringStep(9999999, 9);
    NatToStringStep(99999999, 9);
  }

  lemma Plain999999999()
    requires NatToString(999999999) == "999999999"
    ensures Plain(Decimal(false, 999999999, 3)) == "999999.999"
  {
    assert CoefDigits(999999999, 3) == "999999999";
  }

  lemma RoundUp999999999()
    ensures Rescale(Decimal(false, 999999999, 3), 2, HalfUp) == Decimal(false, 100000000, 2)
  {
    assert Pow10(1) == 10;
    assert RoundDiv(999999999, 10, HalfUp) == 100000000;
  }

  lemma Digits100000000()
    ensures NatToString(100000000) == "100000000"
  {
    assert NatToString(1) == "1";
    NatToStringStep(1, 0);
    NatToStringStep(10, 0);
    NatToStringStep(100, 0);
    NatToStringStep(1000, 0);
    NatToStringStep(10000, 0);
    NatToStringStep(100000, 0);
    NatToStringStep(1000000, 0);
    NatToStringStep(10000000, 0);
  }

  lemma Cents100000000()
    requires NatToString(100000000) == "100000000"
    ensures IntDigits(100000000, 2) == "1000000" && FracDigits(100000000, 2) == "00"
  {
    assert CoefDigits(100000000, 2) == "100000000";
  }

  lemma Group1000000()
    ensures Group("1000000", ".") == "1.000.000"
  {
    assert "1000000"[..4] == "1000" && "1000000"[4..] == "000";
    assert "1000"[..1] == "1" && "1000"[1..] == "000";
  }

  /** A tie is rounded half up, away from zero, by `dec` (the format's own
      half-even rounding would give "0,12"). */
  lemma CurrencyTieRoundsUp()
    ensures BrCurrency(TextArg("0.125")) == Ok("0,13")
  {
    Plain125();
    RoundUp125();
    Cents13();
    CurrencyOfText("0.125", Decimal(false, 125, 3), 13, "0", "13", "0,13");
  }

  lemma Plain125()
    ensures Plain(Decimal(false, 125, 3)) == "0.125"
  {
    assert NatToString(1) == "1";
    NatToStringStep(1, 2);
    NatToStringStep(12, 5);
    assert CoefDigits(125, 3) == "0125";
  }

  lemma RoundUp125()
    ensures Rescale(Decimal(false, 125, 3), 2, HalfUp) == Decimal(false, 13, 2)
  {
    assert Pow10(1) == 10;
    assert RoundDiv(125, 10, HalfUp) == 13;
  }

  lemma Cents13()
    ensures IntDigits(13, 2) == "0" && FracDigits(13, 2) == "13"
  {
    assert NatToString(1) == "1";
    NatToStringStep(1, 3);
    assert CoefDigits(13, 2) == "013";
  }
}
