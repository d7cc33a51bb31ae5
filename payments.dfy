/** The payments block of the DANFE (`draw_payments`): a rule, the
    "Pagamentos" title, one line per `detPag` with the payment method's label
    on the left and the amount on the right, and a change-due ("Troco") line
    only when the change is strictly positive. Labels come from the table of
    payment-type codes (`tPag`) of the NFC-e layout. */
module Payments {

  import opened Base
  import opened Text
  import opened Decimals
  import opened Xml
  import opened Format
  import opened Canvas
  import opened Layout

  /** `TPAG_MAP`: the payment-type codes and their labels. */
  const TPagMap: map<string, string> := map[
    "01" := "Dinheiro",
    "02" := "Cheque",
    "03" := "Cartão de Crédito",
    "04" := "Cartão de Débito",
    "05" := "Crédito Loja",
    "10" := "Vale Alimentação",
    "11" := "Vale Refeição",
    "12" := "Vale Presente",
    "13" := "Vale Combustível",
    "15" := "Boleto Bancário",
    "16" := "Depósito Bancário",
    "17" := "PIX",
    "18" := "Transf. bancária / Carteira digital",
    "19" := "Fidelidade/Cashback/Crédito Virtual",
    "90" := "Outros"
  ]

  const Fallback: string := "Código "

  /** `TPAG_MAP.get(tPag, f"Código {tPag}")`. */
  function MethodName(tPag: string): (r: string)
    ensures tPag in TPagMap ==> r == TPagMap[tPag]
    ensures tPag !in TPagMap ==> r == Fallback + tPag
  {
    if tPag in TPagMap then TPagMap[tPag] else Fallback + tPag
  }

  /** The label of a payment line: the method's name, followed by
      ` (xPag)` exactly when the free-text description `xPag` is not
      empty. */
  function Label(tPag: string, xPag: string): (r: string)
    ensures StartsWith(r, MethodName(tPag))
    ensures xPag == "" <==> |r| == |MethodName(tPag)|
    ensures xPag != "" ==> r[|MethodName(tPag)|..] == " (" + xPag + ")"
  {
    var meio := MethodName(tPag);
    if xPag != "" then meio + " (" + xPag + ")" else meio
  }

  /** A mapped code without a description prints its name alone. */
  lemma LabelPix()
    ensures Label("17", "") == "PIX"
  {
  }

  /** A description follows the name in parentheses. */
  lemma LabelWithDescription()
    ensures Label("01", "Dinheiro à vista") == "Dinheiro (Dinheiro à vista)"
  {
    assert MethodName("01") == "Dinheiro";
    assert "Dinheiro" + " (" + "Dinheiro à vista" + ")" == "Dinheiro (Dinheiro à vista)";
  }

  /** An unknown code prints as "Código" and the code. */
  lemma LabelUnknown()
    ensures Label("99", "") == "Código 99"
  {
  }

  /** No mapped label starts like the fallback "Código ...". */
  lemma MappedIsNotFallback(k: string)
    requires k in TPagMap
    ensures !StartsWith(TPagMap[k], Fallback)
  {
    var v := TPagMap[k];
    if |v| >= |Fallback| {
      assert v[..|Fallback|][1] == v[1];
      assert Fallback[1] == 'ó';
    }
  }

  /** Distinct codes have distinct labels. */
  lemma MapIsInjective(a: string, b: string)
    requires a in TPagMap && b in TPagMap && TPagMap[a] == TPagMap[b]
    ensures a == b
  {
  }

  /** Without a description, the label identifies the code: different codes,
      mapped or not, are printed differently. */
  lemma LabelIdentifiesCode(a: string, b: string)
    requires Label(a, "") == Label(b, "")
    ensures a == b
  {
    var la, lb := MethodName(a), MethodName(b);
    if a in TPagMap && b in TPagMap {
      MapIsInjective(a, b);
    } else if a in TPagMap {
      MappedIsNotFallback(a);
    } else if b in TPagMap {
      MappedIsNotFallback(b);
    } else {
      assert (Fallback + a)[|Fallback|..] == a;
      assert (Fallback + b)[|Fallback|..] == b;
    }
  }

  /** `br_currency` of a `Decimal` that `get_dec` returned: `dec` keeps it as
      it is, so this never fails. */
  function Currency(v: Decimal): (r: string)
    ensures BrCurrency(DecimalArg(v)) == Ok(r)
  {
    BrCurrency(DecimalArg(v)).value
  }

  /** The two texts of a payment line: its caption (the label) and its amount. */
  datatype PayTexts = PayTexts(caption: string, amount: string)

  /** How the block obtains the texts of a payment line and the text of the
      change line; `PaymentTexts` and `ChangeText` are what the source
      computes. The drawing operations take them as parameters, so that
      their proofs do not depend on how a number is converted and
      formatted. */
  type PayTextsOf = Element -> Result<PayTexts, DecimalError>
  type ChangeOf = Element -> Result<Option<string>, DecimalError>

  /** The texts of one `detPag`: the label of its `tPag` and `xPag`, and
      `br_currency(get_dec(dp, "nfe:vPag"))`. */
  function PaymentTexts(dp: Element): (r: Result<PayTexts, DecimalError>)
    ensures r.Err? <==> GetDec(Some(dp), [Q("vPag")]).Err?
    ensures r.Ok? ==> r.value.caption == Label(ChildText(Some(dp), "tPag"), ChildText(Some(dp), "xPag"))
    ensures r.Ok? ==> BrCurrency(DecimalArg(GetDec(Some(dp), [Q("vPag")]).value)) == Ok(r.value.amount)
  {
    match GetDec(Some(dp), [Q("vPag")])
    case Err(e) => Err(e)
    case Ok(v) => Ok(PayTexts(Label(ChildText(Some(dp), "tPag"), ChildText(Some(dp), "xPag")), Currency(v)))
  }

  /** The change of the payments group: the text of `vTroco` when it is
      strictly positive, nothing when it is not. */
  function ChangeText(pag: Element): (r: Result<Option<string>, DecimalError>)
    ensures r.Err? <==> GetDec(Some(pag), [Q("vTroco")]).Err?
    ensures r.Ok? ==> (r.value.Some? <==> IsPositive(GetDec(Some(pag), [Q("vTroco")]).value))
    ensures r.Ok? && r.value.Some? ==> BrCurrency(DecimalArg(GetDec(Some(pag), [Q("vTroco")]).value)) == Ok(r.value.value)
  {
    match GetDec(Some(pag), [Q("vTroco")])
    case Err(e) => Err(e)
    case Ok(v) => Ok(if IsPositive(v) then Some(Currency(v)) else None)
  }

  /** An absent change reads as zero, so no change line is drawn. */
  lemma NoChangeField(pag: Element)
    requires FindPath(pag, [Q("vTroco")]).None?
    ensures ChangeText(pag) == Ok(None)
  {
    GetDecMissing(Some(pag), [Q("vTroco")]);
  }

  /** The two texts of one payment line at height `y`. */
  function PaymentLineOps(t: PayTexts, y: real, p: Paper): seq<Instr>
  {
    [Text(Left, p.margin, y, t.caption), Text(Right, p.width - p.margin, y, t.amount)]
  }

  /** The loop over the `detPag` elements from `y` down, 12 points apart; the
      first amount that does not convert stops it. */
  function PaymentLines(dps: seq<Element>, y: real, p: Paper, texts: PayTextsOf): (r: Result<Drawn, DecimalError>)
    ensures r.Ok? ==> r.value.y == y - 12.0 * (|dps| as real) && |r.value.ops| == 2 * |dps|
    decreases |dps|
  {
    if dps == [] then Ok(Drawn(y, []))
    else
      match texts(dps[0])
      case Err(e) => Err(e)
      case Ok(t) =>
        match PaymentLines(dps[1..], y - 12.0, p, texts)
        case Err(e) => Err(e)
        case Ok(rest) => Ok(Drawn(rest.y, PaymentLineOps(t, y, p) + rest.ops))
  }

  /** The two texts of the change line at height `y`. */
  function ChangeOps(amount: string, y: real, p: Paper): seq<Instr>
  {
    [Text(Left, p.margin, y, "Troco"), Text(Right, p.width - p.margin, y, amount)]
  }

  /** The rule and the title. */
  function HeadOps(y: real, p: Paper): seq<Instr>
  {
    [Rule(p.margin, y, p.width - p.margin, y), Text(Left, p.margin, y - 12.0, "Pagamentos")]
  }

  /** `draw_payments(c, pag, y, ...)`: nothing without a payments group;
      otherwise a rule, the title 12 points lower, the payment lines from 24
      points lower, and the change line after them when there is one. */
  function PaymentsBlock(pag: Option<Element>, y: real, p: Paper, texts: PayTextsOf, change: ChangeOf)
    : (r: Result<Drawn, DecimalError>)
    ensures pag.None? ==> r == Ok(Drawn(y, []))
  {
    match pag
    case None => Ok(Drawn(y, []))
    case Some(g) =>
      match PaymentLines(FindAll(g, Q("detPag")), y - 24.0, p, texts)
      case Err(e) => Err(e)
      case Ok(lines) =>
        match change(g)
        case Err(e) => Err(e)
        case Ok(None) => Ok(Drawn(lines.y, HeadOps(y, p) + lines.ops))
        case Ok(Some(amount)) => Ok(Drawn(lines.y - 12.0, HeadOps(y, p) + lines.ops + ChangeOps(amount, lines.y, p)))
  }

  /** The block as the source draws it. */
  function Payments(pag: Option<Element>, y: real, p: Paper): Result<Drawn, DecimalError>
  {
    PaymentsBlock(pag, y, p, PaymentTexts, ChangeText)
  }

  /** When the block is drawn, the cursor drops 24 points for the rule and
      the title, 12 per payment and 12 more for the change line; the change
      line comes last and is there exactly when there is a change. */
  lemma PaymentsShape(pag: Element, y: real, p: Paper, texts: PayTextsOf, change: ChangeOf)
    requires PaymentsBlock(Some(pag), y, p, texts, change).Ok?
    ensures change(pag).Ok?
    ensures var r := PaymentsBlock(Some(pag), y, p, texts, change).value;
      var n := |FindAll(pag, Q("detPag"))|;
      var troco := change(pag).value.Some?;
      r.y == y - 24.0 - 12.0 * (n as real) - (if troco then 12.0 else 0.0)
      && |r.ops| == 2 + 2 * n + (if troco then 2 else 0)
      && r.ops[..2] == HeadOps(y, p)
      && (troco ==> r.ops[|r.ops| - 2..] == ChangeOps(change(pag).value.value, r.y + 12.0, p))
  {
    var lines := PaymentLines(FindAll(pag, Q("detPag")), y - 24.0, p, texts).value;
    var r := PaymentsBlock(Some(pag), y, p, texts, change).value;
    if change(pag).value.Some? {
      assert r.ops == HeadOps(y, p) + lines.ops + ChangeOps(change(pag).value.value, lines.y, p);
    } else {
      assert r.ops == HeadOps(y, p) + lines.ops;
    }
  }

  /** The `k`-th payment line shows the texts of the `k`-th `detPag`, 12
      points below the one before: its label at the left margin and its
      amount at the right one. */
  lemma {:induction false} PaymentLinesAt(dps: seq<Element>, y: real, p: Paper, texts: PayTextsOf, k: nat)
    requires PaymentLines(dps, y, p, texts).Ok? && k < |dps|
    ensures texts(dps[k]).Ok?
    ensures var ops := PaymentLines(dps, y, p, texts).value.ops;
      var yk := y - 12.0 * (k as real);
      ops[2 * k] == Text(Left, p.margin, yk, texts(dps[k]).value.caption)
      && ops[2 * k + 1] == Text(Right, p.width - p.margin, yk, texts(dps[k]).value.amount)
    decreases |dps|
  {
    var ops := PaymentLines(dps, y, p, texts).value.ops;
    var rest := PaymentLines(dps[1..], y - 12.0, p, texts).value.ops;
    assert ops == PaymentLineOps(texts(dps[0]).value, y, p) + rest;
    if k > 0 {
      PaymentLinesAt(dps[1..], y - 12.0, p, texts, k - 1);
      assert dps[1..][k - 1] == dps[k];
      assert ops[2 * k] == rest[2 * (k - 1)] && ops[2 * k + 1] == rest[2 * (k - 1) + 1];
    }
  }

  /** `draw_payments(c, pag, y, ...)`: the rule and the title, the loop over
      the `detPag` elements, then the change line. */
  method DrawPayments(pag: Option<Element>, y0: real, p: Paper, texts: PayTextsOf, change: ChangeOf)
    returns (r: Result<Drawn, DecimalError>)
    ensures r == PaymentsBlock(pag, y0, p, texts, change)
  {
    if pag.None? {
      return Ok(Drawn(y0, []));
    }
    var g := pag.value;
    var lines := DrawPaymentLines(FindAll(g, Q("detPag")), y0 - 24.0, p, texts);
    if lines.Err? {
      return Err(lines.error);
    }
    var y := lines.value.y;
    var ops := HeadOps(y0, p) + lines.value.ops;
    var troco := change(g);
    if troco.Err? {
      return Err(troco.error);
    }
    if troco.value.Some? {
      ops := ops + ChangeOps(troco.value.value, y, p);
      y := y - 12.0;
    }
    r := Ok(Drawn(y, ops));
  }

  /** The loop over the `detPag` elements: one line each, 12 points apart. */
  method DrawPaymentLines(dps: seq<Element>, y0: real, p: Paper, texts: PayTextsOf) returns (r: Result<Drawn, DecimalError>)
    ensures r == PaymentLines(dps, y0, p, texts)
  {
    var ops: seq<Instr> := [];
    var y := y0;
    var i := 0;
    assert dps[0..] == dps;
    PrefixEmpty(PaymentLines(dps, y0, p, texts));
    while i < |dps|
      invariant 0 <= i <= |dps|
      invariant PaymentLines(dps, y0, p, texts) == Prefix(ops, PaymentLines(dps[i..], y, p, texts))
    {
      var t := texts(dps[i]);
      if t.Err? {
        LinesFail(dps, i, y, p, texts);
        return Err(t.error);
      }
      var line := PaymentLineOps(t.value, y, p);
      LinesStep(dps, i, y, p, texts);
      PrefixPrefix(ops, line, PaymentLines(dps[i + 1..], y - 12.0, p, texts));
      ops := ops + line;
      y := y - 12.0;
      i := i + 1;
    }
    assert dps[i..] == [] && ops + [] == ops;
    r := Ok(Drawn(y, ops));
  }

  lemma LinesFail(dps: seq<Element>, i: nat, y: real, p: Paper, texts: PayTextsOf)
    requires i < |dps| && texts(dps[i]).Err?
    ensures PaymentLines(dps[i..], y, p, texts) == Err(texts(dps[i]).error)
  {
    assert dps[i..][0] == dps[i];
  }

  lemma LinesStep(dps: seq<Element>, i: nat, y: real, p: Paper, texts: PayTextsOf)
    requires i < |dps| && texts(dps[i]).Ok?
    ensures PaymentLines(dps[i..], y, p, texts)
      == Prefix(PaymentLineOps(texts(dps[i]).value, y, p), PaymentLines(dps[i + 1..], y - 12.0, p, texts))
  {
    assert dps[i..][0] == dps[i] && dps[i..][1..] == dps[i + 1..];
  }

  /** Some payment's texts fail. */
  predicate AnyBadAmount(dps: seq<Element>, texts: PayTextsOf)
    decreases |dps|
  {
    dps != [] && (texts(dps[0]).Err? || AnyBadAmount(dps[1..], texts))
  }

  lemma {:induction false} LinesFailIff(dps: seq<Element>, y: real, p: Paper, texts: PayTextsOf)
    ensures PaymentLines(dps, y, p, texts).Err? <==> AnyBadAmount(dps, texts)
    decreases |dps|
  {
    if dps != [] {
      LinesFailIff(dps[1..], y - 12.0, p, texts);
    }
  }

  /** The block fails exactly when a payment amount or the change does not
      convert. */
  lemma PaymentsFailIff(pag: Element, y: real, p: Paper, texts: PayTextsOf, change: ChangeOf)
    ensures PaymentsBlock(Some(pag), y, p, texts, change).Err?
      <==> AnyBadAmount(FindAll(pag, Q("detPag")), texts) || change(pag).Err?
  {
    LinesFailIff(FindAll(pag, Q("detPag")), y - 24.0, p, texts);
  }

  /** No payment label reads "Troco", so the change line cannot be mistaken
      for a payment. */
  lemma LabelIsNotTroco(tPag: string, xPag: string)
    ensures Label(tPag, xPag) != "Troco"
  {
    if tPag in TPagMap {
      NotPrefixOfTroco(tPag);
    }
  }

  /** No mapped name is a prefix of "Troco". */
  lemma NotPrefixOfTroco(k: string)
    requires k in TPagMap
    ensures !StartsWith("Troco", TPagMap[k])
  {
    var v := TPagMap[k];
    if |v| <= 5 {
      assert v == "PIX";
      assert "Troco"[..3] == "Tro";
    }
  }
}
