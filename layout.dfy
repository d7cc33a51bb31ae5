/** The item table of the DANFE: the paper preset, the column widths, the
    table header, one item row (code, description wrapped on at most two
    lines, quantity, unit, unit price, total) and the loop of `make_pdf`
    that draws the rows and breaks the page when a row may not fit above
    the 40 mm floor. The vertical cursor `y` is a real number of points,
    growing upwards, and the drawing is recorded as canvas instructions. */
module Layout {

  import opened Base
  import opened Text
  import opened Decimals
  import opened Xml
  import opened Format
  import opened Canvas
  import opened Wrap

  /** Page size and margin, in points. */
  datatype Paper = Paper(width: real, height: real, margin: real)

  /** Where drawing stands after a part of the page: the cursor and what was
      drawn. */
  datatype Drawn = Drawn(y: real, ops: seq<Instr>)

  /** reportlab's A4 page (210 x 297 mm) with the 12 mm margin. */
  const A4Paper: Paper := Paper(210.0 * Mm, 297.0 * Mm, 12.0 * Mm)

  /** The 80 mm roll, cut at 280 mm, with a 5 mm margin. */
  const RollPaper: Paper := Paper(80.0 * Mm, 280.0 * Mm, 5.0 * Mm)

  function LowerChar(c: char): char
  {
    if 'A' <= c <= 'Z' then (c as int + 32) as char else c
  }

  /** `s.lower()` on the ASCII letters. */
  function Lower(s: string): (r: string)
    ensures |r| == |s|
  {
    seq(|s|, i requires 0 <= i < |s| => LowerChar(s[i]))
  }

  /** Lower-casing cannot make or unmake a leading "80". */
  lemma LowerPrefix80(s: string)
    ensures StartsWith(Lower(s), "80") <==> StartsWith(s, "80")
  {
    if |s| >= 2 {
      assert Lower(s)[..2] == [LowerChar(s[0]), LowerChar(s[1])];
      assert s[..2] == [s[0], s[1]];
    }
  }

  /** The paper preset of `make_pdf`: the roll for any name that starts with
      "80" once lower-cased, A4 otherwise. */
  function SelectPaper(paper: string): (p: Paper)
    ensures StartsWith(paper, "80") ==> p == RollPaper
    ensures !StartsWith(paper, "80") ==> p == A4Paper
  {
    LowerPrefix80(paper);
    if StartsWith(Lower(paper), "80") then RollPaper else A4Paper
  }

  /** The six column widths: code, description, quantity, unit, unit price,
      total; the description is narrower on a page under 100 mm. */
  function ColumnWidths(p: Paper): (ws: seq<real>)
    ensures |ws| == 6
  {
    [22.0 * Mm, if p.width < 100.0 * Mm then 64.0 * Mm else 90.0 * Mm, 10.0 * Mm, 14.0 * Mm, 25.0 * Mm, 28.0 * Mm]
  }

  /** `sum(widths)`. */
  function Sum(s: seq<real>): real
  {
    if s == [] then 0.0 else Sum(s[..|s| - 1]) + s[|s| - 1]
  }

  lemma SumSix(ws: seq<real>)
    requires |ws| == 6
    ensures Sum(ws[..4]) == ws[0] + ws[1] + ws[2] + ws[3]
    ensures Sum(ws[..5]) == Sum(ws[..4]) + ws[4]
    ensures Sum(ws) == Sum(ws[..5]) + ws[5]
  {
    assert ws[..1][..0] == [] && ws[..2][..1] == ws[..1] && ws[..3][..2] == ws[..2];
    assert ws[..4][..3] == ws[..3] && ws[..5][..4] == ws[..4] && ws[..6][..5] == ws[..5];
    assert Sum(ws[..1]) == ws[0];
    assert Sum(ws[..2]) == ws[0] + ws[1];
    assert Sum(ws[..3]) == ws[0] + ws[1] + ws[2];
    assert ws[..6] == ws;
  }

  /** The description column is 64 mm on the roll and 90 mm on A4, and the
      whole table is 163 mm and 189 mm wide. */
  lemma PresetColumns(paper: string)
    ensures var ws := ColumnWidths(SelectPaper(paper));
      (StartsWith(paper, "80") ==> ws[1] == 64.0 * Mm && Sum(ws) == 163.0 * Mm)
      && (!StartsWith(paper, "80") ==> ws[1] == 90.0 * Mm && Sum(ws) == 189.0 * Mm)
  {
    SumSix(ColumnWidths(SelectPaper(paper)));
  }

  /** On A4 the table ends 3 mm into the right margin, still on the page; on
      the roll it runs past the right edge of the page, so the last columns
      fall off it. */
  lemma TableAgainstPage(paper: string)
    ensures var p := SelectPaper(paper);
      var right := p.margin + Sum(ColumnWidths(p));
      (StartsWith(paper, "80") ==> right > p.width)
      && (!StartsWith(paper, "80") ==> p.width - p.margin < right <= p.width)
  {
    PresetColumns(paper);
  }

  // ---------------------------------------------------------------------
  // The table header
  // ---------------------------------------------------------------------

  const Headers: seq<string> := ["CÓD", "DESCRIÇÃO", "QTD", "UN", "V.UNIT", "V.TOTAL"]

  /** The first `n` header labels, each 2 points right of the left edge of
      its column and 2 points below `y`. */
  function HeaderCells(x: real, y: real, widths: seq<real>, n: nat): (r: seq<Instr>)
    requires n <= 6 <= |widths|
    ensures |r| == n
    ensures forall i :: 0 <= i < n ==> r[i] == Text(Left, x + Sum(widths[..i]) + 2.0, y - 2.0, Headers[i])
  {
    if n == 0 then []
    else HeaderCells(x, y, widths, n - 1) + [Text(Left, x + Sum(widths[..n - 1]) + 2.0, y - 2.0, Headers[n - 1])]
  }

  /** What `draw_items_header` draws: the six labels and a rule across the
      whole table 10 points below `y`. */
  function HeaderOps(x: real, y: real, widths: seq<real>): (r: seq<Instr>)
    requires 6 <= |widths|
    ensures |r| == 7 && r[6] == Rule(x, y - 10.0, x + Sum(widths), y - 10.0)
    ensures forall i :: 0 <= i < 6 ==> r[i] == Text(Left, x + Sum(widths[..i]) + 2.0, y - 2.0, Headers[i])
  {
    HeaderCells(x, y, widths, 6) + [Rule(x, y - 10.0, x + Sum(widths), y - 10.0)]
  }

  /** `draw_items_header(c, x, y, widths, font_b)`: the loop that moves the
      column edge `x0`, then the rule; the cursor ends 25 points lower. */
  method DrawItemsHeader(x: real, y: real, widths: seq<real>) returns (newY: real, ops: seq<Instr>)
    requires 6 <= |widths|
    ensures ops == HeaderOps(x, y, widths)
    ensures newY == y - 25.0
  {
    ops := [];
    var x0 := x;
    var i := 0;
    while i < 6
      invariant 0 <= i <= 6
      invariant x0 == x + Sum(widths[..i])
      invariant ops == HeaderCells(x, y, widths, i)
    {
      ops := ops + [Text(Left, x0 + 2.0, y - 2.0, Headers[i])];
      assert widths[..i + 1][..i] == widths[..i];
      x0 := x0 + widths[i];
      i := i + 1;
    }
    var ly := y - 10.0;
    ops := ops + [Rule(x, ly, x + Sum(widths), ly)];
    newY := ly - 15.0;
  }

  // ---------------------------------------------------------------------
  // One item row
  // ---------------------------------------------------------------------

  /** The six texts of a row, in column order. */
  datatype RowTexts = RowTexts(code: string, desc: string, qty: string, unit: string, unitPrice: string, total: string)

  /** The column texts of `draw_item_row` as written: the quantity defaults
      to "0" when empty, but the unit price and the total are passed to
      `br_currency` as they are, so an empty one fails to convert. */
  function ItemTextsAsWritten(prod: Option<Element>): (r: Result<RowTexts, DecimalError>)
    ensures r.Ok? ==> BrCurrency(TextArg(ChildText(prod, "vUnCom"))) == Ok(r.value.unitPrice)
    ensures BrCurrency(TextArg(ChildText(prod, "vUnCom"))).Err? ==> r.Err?
  {
    match QuantityText(ChildText(prod, "qCom"))
    case Err(e) => Err(e)
    case Ok(qty) =>
      match BrCurrency(TextArg(ChildText(prod, "vUnCom")))
      case Err(e) => Err(e)
      case Ok(unitPrice) =>
        match BrCurrency(TextArg(ChildText(prod, "vProd")))
        case Err(e) => Err(e)
        case Ok(total) =>
          Ok(RowTexts(ChildText(prod, "cProd"), ChildText(prod, "xProd"), qty, ChildText(prod, "uCom"), unitPrice, total))
  }

  /** An amount column with the same default as the quantity: "0" when the
      field is empty. */
  function AmountText(t: string): (r: Result<string, DecimalError>)
    ensures t != "" ==> r == BrCurrency(TextArg(t))
  {
    BrCurrency(TextArg(if t == "" then "0" else t))
  }

  /** The column texts of a row with every numeric field defaulting to 0. */
  function ItemTexts(prod: Option<Element>): (r: Result<RowTexts, DecimalError>)
    ensures r.Err? <==> (QuantityText(ChildText(prod, "qCom")).Err?
                         || AmountText(ChildText(prod, "vUnCom")).Err? || AmountText(ChildText(prod, "vProd")).Err?)
  {
    match QuantityText(ChildText(prod, "qCom"))
    case Err(e) => Err(e)
    case Ok(qty) =>
      match AmountText(ChildText(prod, "vUnCom"))
      case Err(e) => Err(e)
      case Ok(unitPrice) =>
        match AmountText(ChildText(prod, "vProd"))
        case Err(e) => Err(e)
        case Ok(total) =>
          Ok(RowTexts(ChildText(prod, "cProd"), ChildText(prod, "xProd"), qty, ChildText(prod, "uCom"), unitPrice, total))
  }

  /** As written, an item whose unit price is absent (in particular a `det`
      without `prod`) stops the whole DANFE. */
  lemma AsWrittenRejectsMissingPrice(prod: Option<Element>)
    requires ChildText(prod, "vUnCom") == ""
    ensures ItemTextsAsWritten(prod) == Err(ConversionSyntax)
  {
    ParseEmpty();
    if QuantityText(ChildText(prod, "qCom")).Ok? {
      assert BrCurrency(TextArg("")) == Err(ConversionSyntax);
    } else {
      ZeroQuantityParses(ChildText(prod, "qCom"));
    }
  }

  /** The quantity column only fails on text that is not a number. */
  lemma ZeroQuantityParses(t: string)
    requires QuantityText(t).Err?
    ensures t != "" && Parse(t).None?
  {
    if t == "" {
      ZeroParses();
    }
  }

  /** With the default, a missing amount reads "0,00" and a missing quantity
      reads "0,0000". */
  lemma ZeroTexts()
    ensures AmountText("") == Ok("0,00")
    ensures QuantityText("") == Ok("0,0000")
  {
    ZeroAmount();
    ZeroQuantity();
  }

  lemma ZeroAmount()
    ensures AmountText("") == Ok("0,00")
  {
    CurrencyZero();
  }

  lemma ZeroQuantity()
    ensures QuantityText("") == Ok("0,0000")
  {
    ZeroParses();
    var z := Decimal(false, 0, 0);
    assert Rescale(z, 4, HalfEven) == Decimal(false, 0, 4);
    ZeroDigits();
    assert BrForm(z, 4) == Layout(false, "0", "0000", ".", ",");
    assert Group("0", ".") == "0";
    assert Layout(false, "0", "0000", ".", ",") == "" + ("0" + ("," + "0000"));
    assert "" + ("0" + ("," + "0000")) == "0,0000";
    assert QuantityText("") == Ok(BrForm(z, 4));
  }

  lemma ZeroDigits()
    ensures IntDigits(0, 4) == "0" && FracDigits(0, 4) == "0000"
  {
    assert NatToString(0) == "0";
    assert CoefDigits(0, 4) == "00000";
  }

  /** A `det` without `prod` draws an empty row of zeros. */
  lemma NoProductRow()
    ensures ItemTexts(None) == Ok(RowTexts("", "", "0,0000", "", "0,00", "0,00"))
  {
    ZeroTexts();
  }

  /** The default changes nothing when both amounts are present. */
  lemma DefaultAgreesWhenPresent(prod: Option<Element>)
    requires ChildText(prod, "vUnCom") != "" && ChildText(prod, "vProd") != ""
    ensures ItemTexts(prod) == ItemTextsAsWritten(prod)
  {
  }

  /** `draw_item_row(c, x, y, widths, font_r, prod)` once its texts are
      computed: the code cut to 12 characters, the description wrapped to at
      most two lines of the column width less 4, and the four other columns
      on the row's first line; the cursor ends 4 points below the last
      description line, so a row takes 14 or 24 points, or 4 for an empty
      description. */
  function ItemRow(x: real, y: real, widths: seq<real>, t: RowTexts, measure: string -> real): (r: Drawn)
    requires 6 <= |widths|
    ensures y - 24.0 <= r.y <= y - 4.0
  {
    var lines := WrappedLines(t.desc, measure, widths[1] - 4.0, Some(2));
    var used := |lines| as real;
    var y1 := y - used * 10.0;
    var x1 := x + widths[0];
    var x2 := x1 + widths[1];
    var x3 := x2 + widths[2];
    var x4 := x3 + widths[3];
    var x5 := x4 + widths[4];
    Drawn(y1 - 4.0,
      [Text(Left, x + 2.0, y, Take(t.code, 12))]
      + LineOps(lines, x1 + 2.0, y, 10.0)
      + [Text(Right, x2 + 25.0, y1 + 10.0 * used, t.qty),
         Text(Left, x3 + 2.0, y1 + 10.0 * used, t.unit),
         Text(Right, x4 + 20.0, y1 + 10.0 * used, t.unitPrice),
         Text(Right, x5 + 25.0, y1 + 10.0 * used, t.total)])
  }

  /** A row takes `10 * used + 4` points, `used` being its one or two
      description lines (none for an empty description). */
  lemma RowHeight(x: real, y: real, widths: seq<real>, t: RowTexts, measure: string -> real)
    requires 6 <= |widths|
    ensures var lines := WrappedLines(t.desc, measure, widths[1] - 4.0, Some(2));
      |lines| <= 2 && ItemRow(x, y, widths, t, measure).y == y - 10.0 * (|lines| as real) - 4.0
      && (|lines| == 0 <==> Words(t.desc) == [])
  {
    var ws := Words(t.desc);
    if ws != [] {
      WrapShape(t.desc, measure, widths[1] - 4.0, Some(2));
      FirstLine(ws, measure, widths[1] - 4.0);
    }
  }

  /** What a row draws: the code at the left of the first column, the
      description lines one under the other, and the quantity, unit, unit
      price and total on the row's first line, at the column offsets of the
      source. */
  lemma RowColumns(x: real, y: real, widths: seq<real>, t: RowTexts, measure: string -> real)
    requires 6 <= |widths|
    ensures var lines := WrappedLines(t.desc, measure, widths[1] - 4.0, Some(2));
      var ops := ItemRow(x, y, widths, t, measure).ops;
      |ops| == |lines| + 5
      && ops[0] == Text(Left, x + 2.0, y, Take(t.code, 12))
      && ops[1..|lines| + 1] == LineOps(lines, x + widths[0] + 2.0, y, 10.0)
      && ops[|lines| + 1..] == [Text(Right, x + widths[0] + widths[1] + 25.0, y, t.qty),
                                Text(Left, x + widths[0] + widths[1] + widths[2] + 2.0, y, t.unit),
                                Text(Right, x + Sum(widths[..4]) + 20.0, y, t.unitPrice),
                                Text(Right, x + Sum(widths[..5]) + 25.0, y, t.total)]
  {
    var lines := WrappedLines(t.desc, measure, widths[1] - 4.0, Some(2));
    var used := |lines| as real;
    var y1 := y - used * 10.0;
    assert y1 + 10.0 * used == y;
    RowEdges(x, widths);
    var head := [Text(Left, x + 2.0, y, Take(t.code, 12))] + LineOps(lines, x + widths[0] + 2.0, y, 10.0);
    var cols := [Text(Right, x + widths[0] + widths[1] + 25.0, y, t.qty),
                 Text(Left, x + widths[0] + widths[1] + widths[2] + 2.0, y, t.unit),
                 Text(Right, x + Sum(widths[..4]) + 20.0, y, t.unitPrice),
                 Text(Right, x + Sum(widths[..5]) + 25.0, y, t.total)];
    assert ItemRow(x, y, widths, t, measure).ops == head + cols;
    assert (head + cols)[1..|lines| + 1] == LineOps(lines, x + widths[0] + 2.0, y, 10.0);
    assert (head + cols)[|lines| + 1..] == cols;
  }

  lemma RowEdges(x: real, widths: seq<real>)
    requires 6 <= |widths|
    ensures Sum(widths[..4]) == widths[0] + widths[1] + widths[2] + widths[3]
    ensures Sum(widths[..5]) == Sum(widths[..4]) + widths[4]
  {
    SumSix(widths[..6]);
    assert widths[..6][..4] == widths[..4] && widths[..6][..5] == widths[..5];
  }

  // ---------------------------------------------------------------------
  // The item loop of make_pdf
  // ---------------------------------------------------------------------

  /** How the column texts of a `prod` are computed: `ItemTexts`, or
      `ItemTextsAsWritten` for the code as written. */
  type TextsOf = Option<Element> -> Result<RowTexts, DecimalError>

  /** The fixed estimate of a row's height. */
  const RowEstimate: real := 24.0

  /** No row starts unless the estimate fits above this line. */
  const Floor: real := 40.0 * Mm

  const ContinuationTitle: string := "DANFE NFC-e (continuação)"

  /** Where the first row of a continuation page starts: below the title
      (14 points) and the re-drawn header (25 points). */
  function ContinuationY(p: Paper): real
  {
    p.height - p.margin - 14.0 - 25.0
  }

  /** What a page break draws: the end of the page, the centred title at the
      top of the new page and the header below it. */
  function ContinuationOps(p: Paper, x: real, widths: seq<real>): seq<Instr>
    requires 6 <= |widths|
  {
    [ShowPage, Text(Centre, p.width / 2.0, p.height - p.margin, ContinuationTitle)]
      + HeaderOps(x, p.height - p.margin - 14.0, widths)
  }

  /** Whether the row about to be drawn at `y` first breaks the page. */
  predicate NeedsBreak(y: real)
  {
    y - RowEstimate < Floor
  }

  function Prefix(ops: seq<Instr>, r: Result<Drawn, DecimalError>): Result<Drawn, DecimalError>
  {
    match r
    case Err(e) => Err(e)
    case Ok(d) => Ok(Drawn(d.y, ops + d.ops))
  }

  /** Where the row goes: the cursor, or the top of a new page. */
  function BreakY(y: real, p: Paper): (r: real)
    ensures NeedsBreak(y) ==> r == ContinuationY(p)
    ensures !NeedsBreak(y) ==> r == y
  {
    if NeedsBreak(y) then ContinuationY(p) else y
  }

  /** What is drawn before the row: the page break, or nothing. */
  function BreakOps(y: real, p: Paper, x: real, widths: seq<real>): (r: seq<Instr>)
    requires 6 <= |widths|
    ensures NeedsBreak(y) ==> r == ContinuationOps(p, x, widths)
    ensures !NeedsBreak(y) ==> r == []
  {
    if NeedsBreak(y) then ContinuationOps(p, x, widths) else []
  }

  /** One turn of the item loop: break the page when `y - 24` is below the
      floor, then draw the row of the item's `prod`; fails when the row's
      texts do. */
  function ItemStep(det: Element, y: real, p: Paper, x: real, widths: seq<real>, texts: TextsOf,
                    measure: string -> real): (r: Result<Drawn, DecimalError>)
    requires 6 <= |widths|
    ensures r.Err? <==> texts(Find(det, Q("prod"))).Err?
    ensures r.Ok? ==> r.value.y >= BreakY(y, p) - RowEstimate
  {
    match texts(Find(det, Q("prod")))
    case Err(e) => Err(e)
    case Ok(t) =>
      var row := ItemRow(x, BreakY(y, p), widths, t, measure);
      Ok(Drawn(row.y, BreakOps(y, p, x, widths) + row.ops))
  }

  /** The whole item loop, from cursor `y`. */
  function Items(dets: seq<Element>, y: real, p: Paper, x: real, widths: seq<real>, texts: TextsOf,
                 measure: string -> real): Result<Drawn, DecimalError>
    requires 6 <= |widths|
    decreases |dets|
  {
    if dets == [] then Ok(Drawn(y, []))
    else
      match ItemStep(dets[0], y, p, x, widths, texts, measure)
      case Err(e) => Err(e)
      case Ok(s) => Prefix(s.ops, Items(dets[1..], s.y, p, x, widths, texts, measure))
  }

  lemma PrefixPrefix(a: seq<Instr>, b: seq<Instr>, r: Result<Drawn, DecimalError>)
    ensures Prefix(a, Prefix(b, r)) == Prefix(a + b, r)
  {
    if r.Ok? {
      assert a + (b + r.value.ops) == (a + b) + r.value.ops;
    }
  }

  lemma PrefixEmpty(r: Result<Drawn, DecimalError>)
    ensures Prefix([], r) == r
  {
    if r.Ok? {
      assert [] + r.value.ops == r.value.ops;
    }
  }

  /** The page-break test of the item loop. */
  method BreakIfNeeded(y: real, p: Paper, x: real, widths: seq<real>) returns (yr: real, brk: seq<Instr>)
    requires 6 <= |widths|
    ensures yr == BreakY(y, p) && brk == BreakOps(y, p, x, widths)
  {
    yr := y;
    brk := [];
    if y - RowEstimate < Floor {
      var top := p.height - p.margin;
      brk := [ShowPage, Text(Centre, p.width / 2.0, top, ContinuationTitle)];
      var hy, hops := DrawItemsHeader(x, top - 14.0, widths);
      brk := brk + hops;
      yr := hy;
    }
  }

  /** The item loop of `make_pdf`, for the `det` elements in order. */
  method DrawItems(dets: seq<Element>, y0: real, p: Paper, x: real, widths: seq<real>, texts: TextsOf,
                   measure: string -> real)
    returns (r: Result<Drawn, DecimalError>)
    requires 6 <= |widths|
    ensures r == Items(dets, y0, p, x, widths, texts, measure)
  {
    var y := y0;
    var ops: seq<Instr> := [];
    var i := 0;
    assert dets[0..] == dets;
    PrefixEmpty(Items(dets, y0, p, x, widths, texts, measure));
    while i < |dets|
      invariant 0 <= i <= |dets|
      invariant Items(dets, y0, p, x, widths, texts, measure)
        == Prefix(ops, Items(dets[i..], y, p, x, widths, texts, measure))
    {
      var prod := Find(dets[i], Q("prod"));
      var yr, brk := BreakIfNeeded(y, p, x, widths);
      var t := texts(prod);
      if t.Err? {
        assert dets[i..][0] == dets[i];
        StepFails(dets[i..], y, p, x, widths, texts, measure);
        r := Err(t.error);
        return;
      }
      var row := ItemRow(x, yr, widths, t.value, measure);
      StepOk(dets, i, y, p, x, widths, texts, measure);
      PrefixPrefix(ops, brk + row.ops, Items(dets[i + 1..], row.y, p, x, widths, texts, measure));
      assert ops + (brk + row.ops) == ops + brk + row.ops;
      ops := ops + brk + row.ops;
      y := row.y;
      i := i + 1;
    }
    assert dets[i..] == [] && ops + [] == ops;
    r := Ok(Drawn(y, ops));
  }

  lemma StepFails(dets: seq<Element>, y: real, p: Paper, x: real, widths: seq<real>, texts: TextsOf,
                  measure: string -> real)
    requires 6 <= |widths|
    requires dets != [] && texts(Find(dets[0], Q("prod"))).Err?
    ensures Items(dets, y, p, x, widths, texts, measure) == Err(texts(Find(dets[0], Q("prod"))).error)
  {
  }

  lemma StepOk(dets: seq<Element>, i: nat, y: real, p: Paper, x: real, widths: seq<real>, texts: TextsOf,
               measure: string -> real)
    requires 6 <= |widths|
    requires i < |dets| && texts(Find(dets[i], Q("prod"))).Ok?
    ensures var row := ItemRow(x, BreakY(y, p), widths, texts(Find(dets[i], Q("prod"))).value, measure);
      Items(dets[i..], y, p, x, widths, texts, measure)
      == Prefix(BreakOps(y, p, x, widths) + row.ops, Items(dets[i + 1..], row.y, p, x, widths, texts, measure))
  {
    assert dets[i..][0] == dets[i] && dets[i..][1..] == dets[i + 1..];
  }

  /** After a break there is always room for the estimate, on both papers. */
  lemma PresetHasRoom(paper: string)
    ensures ContinuationY(SelectPaper(paper)) - RowEstimate >= Floor
  {
  }

  /** A break puts the next row at `page_h - margin - 14 - 25`, below the
      title and the header of the new page. */
  lemma BreakPosition(det: Element, y: real, p: Paper, x: real, widths: seq<real>, texts: TextsOf,
                      measure: string -> real)
    requires 6 <= |widths|
    requires NeedsBreak(y) && texts(Find(det, Q("prod"))).Ok?
    ensures var row := ItemRow(x, p.height - p.margin - 14.0 - 25.0, widths, texts(Find(det, Q("prod"))).value, measure);
      ItemStep(det, y, p, x, widths, texts, measure) == Ok(Drawn(row.y, ContinuationOps(p, x, widths) + row.ops))
  {
  }

  /** Without a break the row is drawn where the cursor stands. */
  lemma NoBreakPosition(det: Element, y: real, p: Paper, x: real, widths: seq<real>, texts: TextsOf,
                        measure: string -> real)
    requires 6 <= |widths|
    requires !NeedsBreak(y) && texts(Find(det, Q("prod"))).Ok?
    ensures ItemStep(det, y, p, x, widths, texts, measure)
      == Ok(ItemRow(x, y, widths, texts(Find(det, Q("prod"))).value, measure))
  {
    var row := ItemRow(x, y, widths, texts(Find(det, Q("prod"))).value, measure);
    assert [] + row.ops == row.ops;
  }

  /** Every row of the table ends on or above the floor: a row is never cut
      at the bottom of a page. */
  lemma {:induction false} ItemsAboveFloor(dets: seq<Element>, y: real, paper: string, x: real, widths: seq<real>,
                                           texts: TextsOf, measure: string -> real)
    requires 6 <= |widths|
    requires Items(dets, y, SelectPaper(paper), x, widths, texts, measure).Ok?
    ensures Items(dets, y, SelectPaper(paper), x, widths, texts, measure).value.y >= (if dets == [] then y else Floor)
    decreases |dets|
  {
    if dets != [] {
      var p := SelectPaper(paper);
      var s := ItemStep(dets[0], y, p, x, widths, texts, measure);
      PresetHasRoom(paper);
      ItemsAboveFloor(dets[1..], s.value.y, paper, x, widths, texts, measure);
    }
  }

  /** A row fails exactly when its texts do. */
  predicate RowFails(texts: TextsOf, det: Element)
  {
    texts(Find(det, Q("prod"))).Err?
  }

  /** Some item's texts fail. */
  predicate AnyFails(texts: TextsOf, dets: seq<Element>)
    decreases |dets|
  {
    dets != [] && (RowFails(texts, dets[0]) || AnyFails(texts, dets[1..]))
  }

  lemma {:induction false} AnyFailsIff(texts: TextsOf, dets: seq<Element>)
    ensures AnyFails(texts, dets) <==> exists i :: 0 <= i < |dets| && RowFails(texts, dets[i])
    decreases |dets|
  {
    if dets != [] {
      AnyFailsIff(texts, dets[1..]);
      if exists i :: 0 <= i < |dets| && RowFails(texts, dets[i]) {
        var i :| 0 <= i < |dets| && RowFails(texts, dets[i]);
        if i > 0 {
          assert RowFails(texts, dets[1..][i - 1]);
        }
      }
      if exists i :: 0 <= i < |dets[1..]| && RowFails(texts, dets[1..][i]) {
        var i :| 0 <= i < |dets[1..]| && RowFails(texts, dets[1..][i]);
        assert RowFails(texts, dets[i + 1]);
      }
    }
  }

  lemma {:induction false} ItemsFailAny(dets: seq<Element>, y: real, p: Paper, x: real, widths: seq<real>,
                                        texts: TextsOf, measure: string -> real)
    requires 6 <= |widths|
    ensures Items(dets, y, p, x, widths, texts, measure).Err? <==> AnyFails(texts, dets)
    decreases |dets|
  {
    if dets != [] {
      var s := ItemStep(dets[0], y, p, x, widths, texts, measure);
      if s.Ok? {
        ItemsFailAny(dets[1..], s.value.y, p, x, widths, texts, measure);
      }
    }
  }

  /** The loop fails exactly when the texts of some item fail, wherever
      the cursor stands. */
  lemma ItemsFailIff(dets: seq<Element>, y: real, p: Paper, x: real, widths: seq<real>,
                     texts: TextsOf, measure: string -> real)
    requires 6 <= |widths|
    ensures Items(dets, y, p, x, widths, texts, measure).Err? <==> exists i :: 0 <= i < |dets| && RowFails(texts, dets[i])
  {
    ItemsFailAny(dets, y, p, x, widths, texts, measure);
    AnyFailsIff(texts, dets);
  }

  /** As written, a `det` without `prod` stops the whole table; with the
      amounts defaulted it does not. */
  lemma MissingProductStopsTable(dets: seq<Element>, k: nat, y: real, p: Paper, x: real, widths: seq<real>,
                                 measure: string -> real)
    requires 6 <= |widths|
    requires k < |dets| && Find(dets[k], Q("prod")).None?
    ensures Items(dets, y, p, x, widths, ItemTextsAsWritten, measure).Err?
    ensures !RowFails(ItemTexts, dets[k])
  {
    AsWrittenRejectsMissingPrice(None);
    assert RowFails(ItemTextsAsWritten, dets[k]);
    ItemsFailIff(dets, y, p, x, widths, ItemTextsAsWritten, measure);
    NoProductRow();
  }

  /** `y = max(y - 6, 60*mm)` after the table. */
  function TableEnd(y: real): (r: real)
    ensures r >= 60.0 * Mm && r >= y - 6.0
    ensures r == y - 6.0 || r == 60.0 * Mm
  {
    RealMax(y - 6.0, 60.0 * Mm)
  }

  /** The table section of `make_pdf` from the cursor `y` that the document
      header leaves: the paper's columns at the left margin, the header, the
      item loop over the `det` elements with the row texts `texts`, and the
      clamp below the table. With `ItemTextsAsWritten` this is the section
      as the program runs it; with `ItemTexts` it is the corrected one. */
  function Table(root: Element, paper: string, y: real, texts: TextsOf, measure: string -> real)
    : (r: Result<Drawn, DecimalError>)
    ensures r.Ok? ==> r.value.y >= 60.0 * Mm
  {
    var p := SelectPaper(paper);
    var widths := ColumnWidths(p);
    match Items(Dets(root), y - 25.0, p, p.margin, widths, texts, measure)
    case Err(e) => Err(e)
    case Ok(d) => Ok(Drawn(TableEnd(d.y), HeaderOps(p.margin, y, widths) + d.ops))
  }

  /** The table fails exactly when the texts of some item fail. */
  lemma TableFailIff(root: Element, paper: string, y: real, texts: TextsOf, measure: string -> real)
    ensures Table(root, paper, y, texts, measure).Err?
      <==> exists i :: 0 <= i < |Dets(root)| && RowFails(texts, Dets(root)[i])
  {
    var p := SelectPaper(paper);
    ItemsFailIff(Dets(root), y - 25.0, p, p.margin, ColumnWidths(p), texts, measure);
  }

  /** As written, a missing unit price or total anywhere in the table (in
      particular a `det` without `prod`) makes the whole section fail,
      while the corrected table accepts a `det` without `prod`. */
  lemma AsWrittenTableFails(root: Element, paper: string, y: real, measure: string -> real, k: nat)
    requires k < |Dets(root)|
    requires ChildText(Find(Dets(root)[k], Q("prod")), "vUnCom") == ""
          || ChildText(Find(Dets(root)[k], Q("prod")), "vProd") == ""
    ensures Table(root, paper, y, ItemTextsAsWritten, measure).Err?
    ensures Find(Dets(root)[k], Q("prod")).None? ==> !RowFails(ItemTexts, Dets(root)[k])
  {
    AsWrittenRejectsMissingAmount(Find(Dets(root)[k], Q("prod")));
    assert RowFails(ItemTextsAsWritten, Dets(root)[k]);
    TableFailIff(root, paper, y, ItemTextsAsWritten, measure);
    NoProductRow();
  }

  /** As written, an item without its unit price or its total fails. */
  lemma AsWrittenRejectsMissingAmount(prod: Option<Element>)
    requires ChildText(prod, "vUnCom") == "" || ChildText(prod, "vProd") == ""
    ensures ItemTextsAsWritten(prod).Err?
  {
    ParseEmpty();
    assert BrCurrency(TextArg("")) == Err(ConversionSyntax);
  }

  /** When every item has both amounts, the corrected table is the table the
      program draws. */
  lemma TablesAgree(root: Element, paper: string, y: real, measure: string -> real)
    requires forall i :: 0 <= i < |Dets(root)| ==>
      ChildText(Find(Dets(root)[i], Q("prod")), "vUnCom") != "" && ChildText(Find(Dets(root)[i], Q("prod")), "vProd") != ""
    ensures Table(root, paper, y, ItemTexts, measure) == Table(root, paper, y, ItemTextsAsWritten, measure)
  {
    var p := SelectPaper(paper);
    forall i | 0 <= i < |Dets(root)|
      ensures ItemTexts(Find(Dets(root)[i], Q("prod"))) == ItemTextsAsWritten(Find(Dets(root)[i], Q("prod")))
    {
      DefaultAgreesWhenPresent(Find(Dets(root)[i], Q("prod")));
    }
    ItemsAgree(Dets(root), y - 25.0, p, p.margin, ColumnWidths(p), ItemTexts, ItemTextsAsWritten, measure);
  }

  /** Two ways of computing the row texts that agree on every item give the
      same item table. */
  lemma {:induction false} ItemsAgree(dets: seq<Element>, y: real, p: Paper, x: real, widths: seq<real>,
                                      t1: TextsOf, t2: TextsOf, measure: string -> real)
    requires 6 <= |widths|
    requires forall i :: 0 <= i < |dets| ==> t1(Find(dets[i], Q("prod"))) == t2(Find(dets[i], Q("prod")))
    ensures Items(dets, y, p, x, widths, t1, measure) == Items(dets, y, p, x, widths, t2, measure)
    decreases |dets|
  {
    if dets != [] {
      assert t1(Find(dets[0], Q("prod"))) == t2(Find(dets[0], Q("prod")));
      var s := ItemStep(dets[0], y, p, x, widths, t1, measure);
      assert s == ItemStep(dets[0], y, p, x, widths, t2, measure);
      if s.Ok? {
        forall i | 0 <= i < |dets[1..]|
          ensures t1(Find(dets[1..][i], Q("prod"))) == t2(Find(dets[1..][i], Q("prod")))
        {
          assert dets[1..][i] == dets[i + 1];
        }
        ItemsAgree(dets[1..], s.value.y, p, x, widths, t1, t2, measure);
      }
    }
  }

  /** The statements of the table section; `make_pdf` runs them with
      `ItemTextsAsWritten`. */
  method DrawTable(root: Element, paper: string, y: real, texts: TextsOf, measure: string -> real)
    returns (r: Result<Drawn, DecimalError>)
    ensures r == Table(root, paper, y, texts, measure)
  {
    var p := SelectPaper(paper);
    var widths := ColumnWidths(p);
    var x := p.margin;
    var y1, hops := DrawItemsHeader(x, y, widths);
    var items := DrawItems(Dets(root), y1, p, x, widths, texts, measure);
    if items.Err? {
      r := Err(items.error);
      return;
    }
    r := Ok(Drawn(TableEnd(items.value.y), hops + items.value.ops));
  }
}
