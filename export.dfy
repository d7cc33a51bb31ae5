/** The spreadsheet export: `parse_items_for_excel` turns one document into
    rows, one per item that has a product, in document order, and
    `export_excel` lays the rows out under eight fixed column headings. */
module Export {

  import opened Base
  import opened Text
  import opened Decimals
  import opened Xml
  import opened AccessKey

  /** One spreadsheet row. The number columns hold what `float(Decimal(...))`
      converts; they are kept here as the decimal that is converted. */
  datatype Row = Row(issued: string, key: string, code: string, description: string,
                     quantity: Decimal, unit: string, unitPrice: Decimal, total: Decimal)

  /** The `0.0` of a number that does not convert, and `Decimal("0")`. */
  const NumberZero: Decimal := Decimal(false, 0, 0)

  /** `float(Decimal(t or "0"))`, with `0.0` when `Decimal` rejects the text:
      the number when the text is one, zero otherwise (the empty text
      included). */
  function Amount(t: string): (r: Decimal)
    ensures Parse(t).Some? ==> r == Parse(t).value
    ensures Parse(t).None? ==> r == NumberZero
  {
    ZeroParses();
    ParseEmpty();
    match Parse(if t == "" then "0" else t)
    case Some(d) => d
    case None => NumberZero
  }

  /** The issue-date column: empty without a `dhEmi`; otherwise the date as
      `fromIso` reformats it (`datetime.fromisoformat` followed by
      `strftime("%d/%m/%Y %H:%M:%S")`), or the raw text when it is not an
      ISO date. */
  function IssuedText(dhEmi: string, fromIso: string -> Option<string>): (r: string)
    ensures dhEmi == "" ==> r == ""
    ensures dhEmi != "" ==> r == (if fromIso(dhEmi).Some? then fromIso(dhEmi).value else dhEmi)
  {
    if dhEmi == "" then ""
    else
      match fromIso(dhEmi)
      case Some(s) => s
      case None => dhEmi
  }

  /** The row of one `prod`, with the document's issue date and key. */
  function RowOf(prod: Element, issued: string, key: string): Row
  {
    Row(issued, key, ChildText(Some(prod), "cProd"), ChildText(Some(prod), "xProd"),
        Amount(ChildText(Some(prod), "qCom")), ChildText(Some(prod), "uCom"),
        Amount(ChildText(Some(prod), "vUnCom")), Amount(ChildText(Some(prod), "vProd")))
  }

  /** The row maker of a document: `RowOf` with its issue date and key. */
  function RowMaker(issued: string, key: string): Element -> Row
  {
    prod => RowOf(prod, issued, key)
  }

  /** A `det` that has a `prod` child. */
  predicate HasProd(det: Element)
  {
    Find(det, Q("prod")).Some?
  }

  /** The rows of the `det` elements `dets`: those without a `prod` are
      skipped, the others give the row `row` makes of their `prod`, in
      order. */
  function Rows(dets: seq<Element>, row: Element -> Row): (r: seq<Row>)
    ensures |r| == Count(dets, HasProd)
  {
    if dets == [] then []
    else DetRows(dets[0], row) + Rows(dets[1..], row)
  }

  /** The rows of a single `det`: none without a `prod`, one with it. */
  function DetRows(det: Element, row: Element -> Row): (r: seq<Row>)
    ensures |r| == (if HasProd(det) then 1 else 0)
    ensures HasProd(det) ==> r == [row(Find(det, Q("prod")).value)]
  {
    match Find(det, Q("prod"))
    case None => []
    case Some(prod) => [row(prod)]
  }

  /** The rows of consecutive runs of items are the rows of each run, one
      after the other: the order of the document is kept. */
  lemma {:induction false} RowsAppend(a: seq<Element>, b: seq<Element>, row: Element -> Row)
    ensures Rows(a + b, row) == Rows(a, row) + Rows(b, row)
  {
    if a == [] {
      assert a + b == b;
    } else {
      assert (a + b)[0] == a[0] && (a + b)[1..] == a[1..] + b;
      RowsAppend(a[1..], b, row);
    }
  }

  /** The row of the `j`-th `det`, when it has a `prod`, is the row numbered
      by how many `det` elements with a `prod` come before it. */
  lemma RowsAt(dets: seq<Element>, j: nat, row: Element -> Row)
    requires j < |dets| && HasProd(dets[j])
    ensures var k := Count(dets[..j], HasProd);
      k < |Rows(dets, row)| && Rows(dets, row)[k] == row(Find(dets[j], Q("prod")).value)
  {
    assert dets == dets[..j] + [dets[j]] + dets[j + 1..];
    RowsAppend(dets[..j] + [dets[j]], dets[j + 1..], row);
    RowsAppend(dets[..j], [dets[j]], row);
    assert [dets[j]][1..] == [];
    assert Rows([dets[j]], row) == DetRows(dets[j], row) + [];
  }

  /** Every row of a document carries the document's issue date and key. */
  lemma {:induction false} RowsCarryDocument(dets: seq<Element>, issued: string, key: string)
    ensures forall i :: 0 <= i < |Rows(dets, RowMaker(issued, key))| ==>
      Rows(dets, RowMaker(issued, key))[i].issued == issued && Rows(dets, RowMaker(issued, key))[i].key == key
  {
    if dets != [] {
      RowsCarryDocument(dets[1..], issued, key);
    }
  }

  /** `parse_items_for_excel` of a parsed document: the issue date from
      `ide/dhEmi`, the key from `robust_extract_chave`, and the rows of the
      `det` elements of `infNFe`. */
  function ItemsForExcel(root: Element, fromIso: string -> Option<string>): (r: seq<Row>)
    ensures |r| == Count(Dets(root), HasProd)
    ensures forall i :: 0 <= i < |r| ==> r[i].key == RobustExtractChave(root)
  {
    var issued := IssuedText(ChildText(FindOpt(InfNFe(root), Q("ide")), "dhEmi"), fromIso);
    RowsCarryDocument(Dets(root), issued, RobustExtractChave(root));
    Rows(Dets(root), RowMaker(issued, RobustExtractChave(root)))
  }

  /** A missing or unreadable quantity or amount is exported as zero. */
  lemma MissingAmountIsZero(prod: Element, local: string)
    requires FindPath(prod, [Q(local)]).None?
    ensures Amount(ChildText(Some(prod), local)) == NumberZero
  {
    ParseEmpty();
  }

  /** `parse_items_for_excel` of a parsed document. */
  method ParseItemsForExcel(root: Element, fromIso: string -> Option<string>) returns (rows: seq<Row>)
    ensures rows == ItemsForExcel(root, fromIso)
  {
    var inf := InfNFe(root);
    var ide := FindOpt(inf, Q("ide"));
    var issued := IssuedText(ChildText(ide, "dhEmi"), fromIso);
    var key := RobustExtractChave(root);
    rows := CollectRows(Dets(root), RowMaker(issued, key));
  }

  /** The loop of `parse_items_for_excel` over the `det` elements: a `det`
      without `prod` is skipped, the others append their row. */
  method CollectRows(dets: seq<Element>, row: Element -> Row) returns (rows: seq<Row>)
    ensures rows == Rows(dets, row)
  {
    rows := [];
    var i := 0;
    assert dets[0..] == dets;
    while i < |dets|
      invariant 0 <= i <= |dets|
      invariant rows + Rows(dets[i..], row) == Rows(dets, row)
    {
      RowsStep(dets, i, row);
      AppendAssoc(rows, DetRows(dets[i], row), Rows(dets[i + 1..], row));
      var prod := Find(dets[i], Q("prod"));
      if prod.Some? {
        rows := rows + [row(prod.value)];
      } else {
        assert rows + [] == rows;
      }
      i := i + 1;
    }
    assert dets[i..] == [] && rows + [] == rows;
  }

  lemma RowsStep(dets: seq<Element>, i: nat, row: Element -> Row)
    requires i < |dets|
    ensures Rows(dets[i..], row) == DetRows(dets[i], row) + Rows(dets[i + 1..], row)
  {
    assert dets[i..][0] == dets[i] && dets[i..][1..] == dets[i + 1..];
  }

  // ---------------------------------------------------------------------
  // export_excel
  // ---------------------------------------------------------------------

  /** The column headings, in the order of the spreadsheet. */
  const Columns: seq<string> :=
    ["DATA EMISSÃO", "CHAVE ELETRÔNICA", "CÓD", "DESCRIÇÃO", "QTD", "UN", "V.UNIT", "V.TOTAL"]

  /** A cell: a text or a number. */
  datatype Cell = Str(s: string) | Num(d: Decimal)

  /** The dictionary that `parse_items_for_excel` appends for a row. */
  function RowDict(r: Row): map<string, Cell>
  {
    map["DATA EMISSÃO" := Str(r.issued), "CHAVE ELETRÔNICA" := Str(r.key), "CÓD" := Str(r.code),
        "DESCRIÇÃO" := Str(r.description), "QTD" := Num(r.quantity), "UN" := Str(r.unit),
        "V.UNIT" := Num(r.unitPrice), "V.TOTAL" := Num(r.total)]
  }

  /** Every heading is a key of every row's dictionary. */
  lemma ColumnsInRowDict(r: Row)
    ensures forall j :: 0 <= j < |Columns| ==> Columns[j] in RowDict(r)
  {
  }

  /** What `export_excel` does with the rows: nothing when there are none
      (whether or not pandas is installed); the error that asks for pandas
      when it is missing; otherwise the sheet, whose cell `(i, j)` is the
      value of heading `j` in row `i`. */
  datatype Outcome = NothingToExport | PandasMissing | Sheet(columns: seq<string>, cells: seq<seq<Cell>>)

  function ExportExcel(rows: seq<Row>, pandas: bool): (r: Outcome)
    ensures rows == [] <==> r == NothingToExport
    ensures r == PandasMissing <==> rows != [] && !pandas
    ensures r.Sheet? ==> r.columns == Columns && |r.cells| == |rows|
  {
    if rows == [] then NothingToExport
    else if !pandas then PandasMissing
    else
      Sheet(Columns, seq(|rows|, i requires 0 <= i < |rows| =>
        ColumnsInRowDict(rows[i]);
        seq(|Columns|, j requires 0 <= j < |Columns| => RowDict(rows[i])[Columns[j]])))
  }

  /** The cells of a row in the order of the headings, as written out. */
  function RowCells(r: Row): seq<Cell>
  {
    [Str(r.issued), Str(r.key), Str(r.code), Str(r.description),
     Num(r.quantity), Str(r.unit), Num(r.unitPrice), Num(r.total)]
  }

  /** Each line of the sheet holds its row's fields in the fixed column
      order: date, key, code, description, quantity, unit, unit price,
      total. */
  lemma SheetRows(rows: seq<Row>, i: nat)
    requires rows != [] && i < |rows|
    ensures ExportExcel(rows, true).Sheet?
    ensures ExportExcel(rows, true).cells[i] == RowCells(rows[i])
  {
    var cells := ExportExcel(rows, true).cells[i];
    assert |cells| == 8;
    forall j | 0 <= j < 8
      ensures cells[j] == RowCells(rows[i])[j]
    {
      assert cells[j] == RowDict(rows[i])[Columns[j]];
    }
  }
}
