# DANFE NFC-e renderer: a Dafny model

`nfce_grafico.py` turns an NFC-e (a Brazilian electronic consumer invoice) into
a DANFE PDF. It can also collect the invoice items of a whole directory into one
spreadsheet. This project models the data-shaping core of that program:

- the amount formats;
- the tolerant field lookups over the parsed XML;
- the access-key extraction and its display;
- the greedy word wrap;
- the payment lines;
- the item table with its page breaks;
- the spreadsheet rows;
- the batch loop over a directory.

Its contracts and lemmas state what the program promises about each.

Modules, one per file:

- `Base` (`base.dfy`): `Option`, `Result`, `Count` and small sequence facts.
- `Text` (`text.dfy`): Python's `str.strip`, `str.split` and `" ".join`, with Python's whitespace set, plus digit filters, prefix/suffix tests and `str.replace`.
- `Decimals` (`decimals.dfy`):
  - Python's `Decimal` as sign, coefficient and exponent;
  - `Decimal(str)` parsing and `str(Decimal)`;
  - `quantize` with `ROUND_HALF_UP` (and the half-even rounding of the format mini-language);
  - `dec`, including the `InvalidOperation` raised for text that is not a number and for a quantized coefficient wider than the 28-digit default precision.
- `Format` (`format.dfy`):
  - `f"{d:,.Nf}"`, which groups digits and rounds half-even;
  - the separator swap of `br_currency`;
  - the 4-place quantity format of `draw_item_row`;
  - a Brazilian-format reader `ParseBr`, which the round-trip lemmas use.
- `Xml` (`xml.dfy`):
  - the element tree;
  - `find`/`findall` on namespaced child tags, including `.//` descendant paths;
  - `get_text`, `get_dec`;
  - the `NFe`/`infNFe`/`det` lookups used throughout.
- `Canvas` (`canvas.dfy`): the drawing instructions the renderer emits (text at a point with an alignment, a rule, a page end). Coordinates are in points, and `Mm` is 72/25.4.
- `AccessKey` (`accesskey.dfy`): `robust_extract_chave` and `format_chave`.
- `Wrap` (`wrap.dfy`): `wrap_text`, as a function and as the loops of the program.
- `Layout` (`layout.dfy`):
  - paper selection and column widths;
  - `draw_items_header` and `draw_item_row`;
  - the item loop of `make_pdf` with its page-break rule;
  - the clamp after the table.
- `Payments` (`payments.dfy`): the `TPAG_MAP` labels and `draw_payments`.
- `Export` (`export.dfy`): `parse_items_for_excel` and the row/column logic of `export_excel`.
- `Batch` (`batch.dfy`): `extract_chave_from_file`, `process_single_xml` and `process_directory`.

Several parts of the program are modelled from outside, as values or parameters:

- Drawing calls become the list of `Canvas.Instr` values they emit, paired with the cursor `y` (`Layout.Drawn`).
- `stringWidth` is a parameter `measure: string -> real`.
- `datetime.fromisoformat` followed by `strftime` is a parameter `fromIso: string -> Option<string>`.
- Each XML file found by the directory scan is a `Batch.XmlSource`. It carries:
  - its path;
  - the document its XML parses to (`None` when `ET.parse` raises);
  - whether `make_pdf` completes for it;
  - whether the later re-read for the spreadsheet succeeds.
- Exceptions are `Result`/`Option` values.

The loops of `wrap_text`, the item loop of `make_pdf`, the `detPag` loop of `draw_payments`, the row loop of `parse_items_for_excel` and the file loop of `process_directory` are `method`s with `while` loops. Each is proved equal to a recursive function, and the properties are proved about that function.

## Model

| member | source | states |
|---|---|---|
| Decimals.RoundDiv | nfce_grafico.py:55 | the rounded quotient is within half a unit of the exact one; on an exact tie, half-up rounds away from zero and half-even lands on an even digit |
| Decimals.Rescale | nfce_grafico.py:55 | rescaling keeps the sign; it multiplies exactly when adding places; when dropping places it rounds to within half a unit of the last kept place, with the tie rule of the rounding mode |
| Decimals.Quantize | nfce_grafico.py:55 | `quantize(Decimal("0.01"), ROUND_HALF_UP)` succeeds exactly when the half-up result fits in 28 digits, gives that result, and otherwise raises the precision error |
| Decimals.Dec | nfce_grafico.py:50-55 | `None` gives 0.00; a `Decimal` comes back unchanged; text that is not a number raises; any other text gives its value quantized half-up to cents (or the precision error) |
| Decimals.ParsePlain | nfce_grafico.py:55 | `Decimal(str(d)) == d` for every decimal `d` |
| Decimals.NatToString | nfce_grafico.py:55 | the decimal numeral of a natural is a non-empty digit string |
| Decimals.NatToStringValue | nfce_grafico.py:55 | reading back the numeral of `n` gives `n` |
| Format.SwapSeparators | nfce_grafico.py:60 | the three chained `replace` calls turn every `,` into `.` and every `.` into `,`, and leave everything else and the length unchanged |
| Format.SwapLayout | nfce_grafico.py:59-60 | swapping the separators of a US-style layout (`,` thousands, `.` decimals) gives the Brazilian layout of the same sign and digits |
| Format.BrFixedIsBrForm | nfce_grafico.py:59-60 | `format(d, ",.Nf")` followed by the swap is the Brazilian layout of `d` rounded half-even to N places |
| Format.BrCurrency | nfce_grafico.py:57-60 | `br_currency` raises exactly when `dec` does, with the same error; otherwise it is the Brazilian 2-place layout of `dec(v)` |
| Format.BrTextRoundTrip | nfce_grafico.py:57-60 | reading a Brazilian layout back (removing `.`, turning `,` into the point) gives the sign, digits and scale that were laid out |
| Format.BrFormRoundTrip | nfce_grafico.py:59-60 | reading back the Brazilian N-place layout of `d` gives `d` rounded half-even to N places |
| Format.BrCurrencyRoundTrip | nfce_grafico.py:50-60 | when `br_currency` of a text succeeds, the text is a number, and reading the output back gives that number rounded half-up to cents |
| Format.GroupShape | nfce_grafico.py:59 | grouping `k` digits gives `k + (k-1)/3` characters, with a period exactly at every fourth position from the right and digits everywhere else |
| Format.BrCurrencyShape | nfce_grafico.py:57-60 | every `br_currency` output is an optional `-` (present for negatives), digits with a period every three from the right, a comma and exactly two digits |
| Format.CurrencyOfText | nfce_grafico.py:57-60 | a text whose value rounds half-up to a non-negative cent count below 10^9 formats as the grouped integer digits, a comma and the two cent digits |
| Format.CurrencyThousands | nfce_grafico.py:58 | `br_currency("1234.5") == "1.234,50"` |
| Format.CurrencyZero | nfce_grafico.py:57-60 | `br_currency("0") == "0,00"` |
| Format.CurrencyCarries | nfce_grafico.py:55-60 | `br_currency("999999.999") == "1.000.000,00"`: the half-up carry ripples into a new thousands group |
| Format.CurrencyTieRoundsUp | nfce_grafico.py:55-60 | `br_currency("0.125") == "0,13"`: `dec` rounds the tie up before the half-even format sees it |
| Format.QuantityText | nfce_grafico.py:193 | the quantity column raises exactly when its text (or `"0"` when empty) is not a number, and is otherwise its Brazilian 4-place layout |
| Format.QuantityRoundTrip | nfce_grafico.py:193 | reading the quantity column back gives the quantity rounded half-even to 4 places |
| Text.Strip | nfce_grafico.py:66 | `strip()` removes exactly the leading and trailing whitespace: the result is an infix with no whitespace at either end, and everything cut off is whitespace |
| Text.StripTrimmed | nfce_grafico.py:66 | stripping a string with no whitespace at either end changes nothing |
| Text.Words | nfce_grafico.py:74 | `split()` yields non-empty words without whitespace |
| Text.WordsUnwords | nfce_grafico.py:74 | splitting words that were joined with single spaces gives back the words |
| Text.DigitsOnly | nfce_grafico.py:111 | the digit filter keeps only digits and never lengthens its input |
| Text.DigitsOnlyRemoveAll | nfce_grafico.py:302 | removing a digit-free pattern does not change which digits a string holds, in order |
| Text.Take | nfce_grafico.py:307 | `s[:n]` is the prefix of length `min(len(s), n)` |
| Text.ReplaceChar | nfce_grafico.py:60 | `replace` of one character by another changes exactly the positions holding it |
| Xml.FirstWithTag | nfce_grafico.py:65 | the first element with a tag is absent exactly when no element has it, and is otherwise the one at the first such index |
| Xml.Find | nfce_grafico.py:65 | `find` returns no child exactly when no child has the tag, and otherwise the first child that has it |
| Xml.FindIsFirstOfFindAll | nfce_grafico.py:236 | `find` is the first element of `findall` for the same tag |
| Xml.FindPathSingle | nfce_grafico.py:65 | a one-step path finds what `find` finds |
| Xml.DescendantsCount | nfce_grafico.py:304 | the `.//` axis ranges over as many elements as the tree has below its root |
| Xml.ChildrenAreDescendants | nfce_grafico.py:304 | every element of a child list is among the elements `.//` searches below it |
| Xml.GetText | nfce_grafico.py:62-66 | `get_text` is `""` when the node is absent, the path matches nothing or the element has no text, and otherwise the stripped text |
| Xml.ChildText | nfce_grafico.py:62-66 | the text of a child is always stripped |
| Xml.GetDec | nfce_grafico.py:68-70 | `get_dec` is 0.00 for an empty text and `dec` of the text otherwise |
| Xml.GetDecMissing | nfce_grafico.py:68-70 | a missing node or a missing element gives 0.00 |
| Xml.GetDecNumber | nfce_grafico.py:55-70 | an element whose text is a number that fits the precision gives that number rounded half-up to cents |
| Xml.ParseStrip | nfce_grafico.py:55 | `Decimal` ignores surrounding whitespace, so stripping first changes nothing |
| Xml.LocateNFe | nfce_grafico.py:296-298 | the `NFe` child when there is one; otherwise the root exactly when its tag ends in `NFe`; otherwise nothing |
| Xml.FindOpt | nfce_grafico.py:321-322 | a lookup on a missing node finds nothing, and on a present one is `find` |
| Xml.Dets | nfce_grafico.py:335 | the items are `det` elements, and there are none without an `infNFe` |
| AccessKey.ProtocolCandidate | nfce_grafico.py:304-306 | the fallback key from `protNFe/infProt/chNFe` is stripped text |
| AccessKey.RobustExtractChave | nfce_grafico.py:288-308 | the key has only digits and at most 44 of them; it comes from the `Id` with every `NFe` removed when that is non-empty, and from the protocol otherwise |
| AccessKey.ExtractIsDigitPrefix | nfce_grafico.py:303-307 | the key is a prefix of the chosen candidate's digits, and is all of them when there are at most 44 |
| AccessKey.DigitlessIdBlocksFallback | nfce_grafico.py:302-307 | an `Id` that is non-empty after removing `NFe` but has no digits gives the empty key, without consulting the protocol |
| AccessKey.StandardId | nfce_grafico.py:296-307 | an `Id` of the form `NFe` + 44 digits gives exactly those 44 digits |
| AccessKey.NoIdUsesProtocol | nfce_grafico.py:303-307 | without an `Id`, a 44-digit protocol key is the key |
| AccessKey.Chunks | nfce_grafico.py:112 | the slices `d[i:i+n]` are non-empty, every one but the last has `n` characters, and there are none exactly when `d` is empty |
| AccessKey.ConcatChunks | nfce_grafico.py:112 | the slices put back together are the original digits |
| AccessKey.FormatChaveDigits | nfce_grafico.py:110-112 | deleting the spaces from `format_chave(ch)` gives exactly the digits of `ch`, in order |
| AccessKey.FormatChaveGroups | nfce_grafico.py:110-112 | the space-separated groups of `format_chave(ch)` are the 4-slices of its digits: all digits, 4 each but the last, which has 1 to 4 |
| Wrap.SliceTo | nfce_grafico.py:86 | `lines[:m]` is a prefix: all of it without a bound, `min(len, m)` lines for `m >= 0`, and Python's length for a negative `m` |
| Wrap.LineOps | nfce_grafico.py:87-88 | line `i` is drawn left-aligned at `y - i*line_height` |
| Wrap.WrapText | nfce_grafico.py:72-89 | the lines are the greedy wrap of the words cut to `max_lines`; the count is their number; the cursor is `y - count*line_height`; line `i` is drawn at `y - i*line_height` |
| Wrap.GreedyLines | nfce_grafico.py:76-84 | the word loop with its `cur` accumulator computes the greedy wrap |
| Wrap.DrawLines | nfce_grafico.py:87-88 | the drawing loop emits one left-aligned text per line, each a line height lower |
| Wrap.WrapStep | nfce_grafico.py:77-82 | a word that fits with the current line extends it; one that does not closes the line and starts the next |
| Wrap.WrapLinesKeepsWords | nfce_grafico.py:76-84 | the non-empty lines joined by spaces are the pending line followed by the remaining words |
| Wrap.WrapKeepsWords | nfce_grafico.py:74-84 | without `max_lines`, the non-empty lines joined by spaces equal the words of the text joined by spaces |
| Wrap.NoEmptyLineAfterStart | nfce_grafico.py:76-84 | once the current line is non-empty, every line produced is non-empty and at least one is |
| Wrap.LinesAcceptable | nfce_grafico.py:76-84 | every line produced is empty, fits the width, or is a single word |
| Wrap.FirstLine | nfce_grafico.py:76-84 | for a non-empty word list, the first line is empty exactly when the first word alone overflows, and no later line is empty |
| Wrap.WrapShape | nfce_grafico.py:72-89 | each line fits, is one word, or is the empty first line of an overflowing first word; only the first line can be empty; at most `max_lines` lines |
| Payments.MethodName | nfce_grafico.py:241 | a mapped code gives its `TPAG_MAP` name; any other code gives `Código ` followed by the code |
| Payments.Label | nfce_grafico.py:241-243 | the label starts with the method name and has ` (xPag)` after it exactly when `xPag` is non-empty |
| Payments.LabelPix | nfce_grafico.py:104 | code `17` without a description is labelled `PIX` |
| Payments.LabelWithDescription | nfce_grafico.py:241-243 | code `01` with description `Dinheiro à vista` is labelled `Dinheiro (Dinheiro à vista)` |
| Payments.LabelUnknown | nfce_grafico.py:241 | the unmapped code `99` is labelled `Código 99` |
| Payments.MappedIsNotFallback | nfce_grafico.py:92-108 | no mapped name looks like the fallback label |
| Payments.MapIsInjective | nfce_grafico.py:92-108 | no two codes share a name |
| Payments.LabelIdentifiesCode | nfce_grafico.py:241 | without descriptions, equal labels mean equal codes |
| Payments.LabelIsNotTroco | nfce_grafico.py:241-250 | no payment line is labelled like the change line |
| Payments.NotPrefixOfTroco | nfce_grafico.py:92-108 | no mapped name is a prefix of `Troco` |
| Payments.Currency | nfce_grafico.py:245 | formatting an already-decimal amount never raises |
| Payments.PaymentTexts | nfce_grafico.py:238-245 | a payment line fails exactly when its `vPag` does; otherwise its caption is the label of `tPag`/`xPag` and its amount is `br_currency(vPag)` |
| Payments.ChangeText | nfce_grafico.py:247-251 | the change fails exactly when `vTroco` does; it is shown exactly when it is strictly positive, formatted by `br_currency` |
| Payments.NoChangeField | nfce_grafico.py:247-248 | without `vTroco` no change line is drawn |
| Payments.PaymentLines | nfce_grafico.py:237-246 | each `detPag` lowers the cursor by 12 and draws two texts |
| Payments.PaymentLinesAt | nfce_grafico.py:237-246 | line `k` draws its caption at the left margin and its amount right-aligned at the right margin, both at `y - 12k` |
| Payments.PaymentsBlock | nfce_grafico.py:227-229 | an absent `pag` leaves the cursor unchanged and draws nothing |
| Payments.PaymentsShape | nfce_grafico.py:227-253 | with a `pag`: the cursor drops 24 for the rule and heading, 12 per `detPag` and 12 more only when there is change; the ops are the heading, two per line and two for the change |
| Payments.DrawPayments | nfce_grafico.py:227-253 | the statement-by-statement `draw_payments` produces the block above |
| Payments.DrawPaymentLines | nfce_grafico.py:237-246 | the `detPag` loop produces the lines above |
| Payments.LinesFail | nfce_grafico.py:240 | a line whose amount fails stops the lines with that error |
| Payments.LinesStep | nfce_grafico.py:237-246 | a line that succeeds is drawn before the remaining lines, 12 points higher |
| Payments.LinesFailIff | nfce_grafico.py:237-246 | the lines fail exactly when some amount fails |
| Payments.PaymentsFailIff | nfce_grafico.py:237-248 | the block fails exactly when some `vPag` or the `vTroco` does not convert |
| Layout.Lower | nfce_grafico.py:417 | `lower()` keeps the length |
| Layout.LowerPrefix80 | nfce_grafico.py:417 | lower-casing does not change whether the paper name starts with `80` |
| Layout.SelectPaper | nfce_grafico.py:417-422 | a paper name starting with `80` gives the 80 x 280 mm roll with a 5 mm margin; anything else gives A4 with a 12 mm margin |
| Layout.ColumnWidths | nfce_grafico.py:429 | there are six columns |
| Layout.PresetColumns | nfce_grafico.py:417-429 | on the roll, the description column is 64 mm and the table 163 mm; on A4 they are 90 mm and 189 mm |
| Layout.TableAgainstPage | nfce_grafico.py:417-430 | on A4 the table ends inside the page but past the right margin; on the roll it runs past the page edge |
| Layout.HeaderCells | nfce_grafico.py:179-181 | heading `i` is drawn 2 points right of the sum of the widths before it, 2 points below the cursor |
| Layout.HeaderOps | nfce_grafico.py:175-185 | the header draws the six headings and then a rule 10 points lower, across all the columns |
| Layout.DrawItemsHeader | nfce_grafico.py:175-185 | the loop over the headings draws the header and leaves the cursor 25 points lower |
| Layout.ItemTextsAsWritten | nfce_grafico.py:190-197 | as written, the unit price column is `br_currency` of the raw `vUnCom` text, and the row fails whenever that does |
| Layout.AsWrittenRejectsMissingPrice | nfce_grafico.py:195 | as written, an item without `vUnCom` (or without `prod`) raises the conversion error |
| Layout.MissingProductStopsTable | nfce_grafico.py:435-444 | as written, a single `det` without a `prod` makes the whole item table fail, while the corrected texts accept it |
| Layout.AmountText | nfce_grafico.py:195-196 | the corrected amount column is `br_currency` of the text whenever the text is non-empty |
| Layout.ItemTexts | nfce_grafico.py:190-197 | the corrected row fails exactly when the quantity, unit price or total is present but not a number |
| Layout.ZeroQuantityParses | nfce_grafico.py:193 | the quantity column fails only for a non-empty text that is not a number |
| Layout.ZeroTexts | nfce_grafico.py:193-196 | an empty amount shows `0,00` and an empty quantity shows `0,0000` |
| Layout.NoProductRow | nfce_grafico.py:190-197 | with the correction, an item without a `prod` draws empty code, description and unit, quantity `0,0000` and amounts `0,00` |
| Layout.DefaultAgreesWhenPresent | nfce_grafico.py:195-196 | when both amounts are present, the correction draws what the code as written draws |
| Layout.ItemRow | nfce_grafico.py:187-205 | a row lowers the cursor by at least 4 and at most 24 points |
| Layout.RowHeight | nfce_grafico.py:199-205 | a row consumes `10*used + 4` points, where `used` is at most 2 and is 0 exactly when the description has no words |
| Layout.RowColumns | nfce_grafico.py:198-204 | a row draws the code cut to 12 characters, the wrapped description lines, then the quantity, unit, unit price and total at the row's top line, each at its column offset |
| Layout.BreakY | nfce_grafico.py:437-443 | when `y - 24` is below 40 mm, the row starts at `page_h - margin - 14 - 25`; otherwise at `y` |
| Layout.BreakOps | nfce_grafico.py:437-443 | a break ends the page, centres the continuation title at the top and redraws the header; no break draws nothing |
| Layout.BreakIfNeeded | nfce_grafico.py:437-443 | the statements of the break give that position and those ops |
| Layout.ItemStep | nfce_grafico.py:434-444 | one item fails exactly when its texts do; otherwise the cursor ends at most 24 points below where its row started |
| Layout.DrawItems | nfce_grafico.py:433-444 | the item loop computes the item table |
| Layout.StepFails | nfce_grafico.py:444 | an item whose texts fail stops the table with that error |
| Layout.StepOk | nfce_grafico.py:434-444 | an item that succeeds draws its break (if any) and row, then the remaining items from the row's end |
| Layout.PresetHasRoom | nfce_grafico.py:417-443 | on both papers a row on a fresh continuation page is above the floor |
| Layout.BreakPosition | nfce_grafico.py:437-444 | with a break, the row is drawn at `page_h - margin - 14 - 25` after the continuation ops |
| Layout.NoBreakPosition | nfce_grafico.py:437-444 | without a break, the row is drawn at the cursor |
| Layout.ItemsAboveFloor | nfce_grafico.py:434-444 | on either preset paper, a table with items never ends below 40 mm |
| Layout.AnyFailsIff | nfce_grafico.py:434-444 | the recursive failure test holds exactly when some item fails |
| Layout.ItemsFailAny | nfce_grafico.py:434-444 | the item loop fails exactly when the recursive failure test holds |
| Layout.ItemsFailIff | nfce_grafico.py:434-444 | the item loop fails exactly when some item's texts fail |
| Layout.TableEnd | nfce_grafico.py:447 | after the table the cursor is `max(y - 6, 60 mm)`: at least both, and equal to one of them |
| Layout.Table | nfce_grafico.py:429-447 | for any row texts, when the table section succeeds the cursor ends at or above 60 mm; the program's own section is the instance with `ItemTextsAsWritten` |
| Layout.TableFailIff | nfce_grafico.py:433-447 | the table section fails exactly when the texts of some item fail; with `ItemTextsAsWritten` this includes any item missing its unit price or total |
| Layout.AsWrittenRejectsMissingAmount | nfce_grafico.py:195-196 | as written, an item without its unit price or without its total fails |
| Layout.AsWrittenTableFails | nfce_grafico.py:434-444 | as written, one item missing its unit price or total (a `det` without `prod` in particular) makes the whole table section fail, while the corrected texts accept a `det` without `prod` |
| Layout.ItemsAgree | nfce_grafico.py:434-444 | two ways of computing row texts that agree on every item give the same item table |
| Layout.TablesAgree | nfce_grafico.py:429-447 | when every item has both amounts, the corrected table is exactly the table the program draws |
| Layout.DrawTable | nfce_grafico.py:429-447 | the statements of the table section compute `Table` for the given row texts; `make_pdf` runs them with `ItemTextsAsWritten` |
| Export.Amount | nfce_grafico.py:340-354 | the number of a quantity or amount is its value when its text (or `"0"` when empty) is a number, and zero otherwise |
| Export.MissingAmountIsZero | nfce_grafico.py:340-354 | a missing quantity or amount is exported as zero |
| Export.IssuedText | nfce_grafico.py:324-331 | no `dhEmi` gives an empty date; a date `fromisoformat` accepts is reformatted; any other text is kept as it is |
| Export.Rows | nfce_grafico.py:336-365 | one row per `det` that has a `prod` |
| Export.DetRows | nfce_grafico.py:337-339 | a `det` without `prod` is skipped, one with it gives the row of its `prod` |
| Export.RowsAppend | nfce_grafico.py:336-365 | the rows of consecutive runs of items are the rows of each run in turn |
| Export.RowsAt | nfce_grafico.py:336-365 | the row of the `j`-th `det` with a `prod` sits at the position given by the number of such `det`s before it |
| Export.RowsCarryDocument | nfce_grafico.py:356-358 | every row carries the document's date and key |
| Export.ItemsForExcel | nfce_grafico.py:310-366 | there is one row per `det` with a `prod`, each carrying the key `robust_extract_chave` finds |
| Export.ParseItemsForExcel | nfce_grafico.py:318-335 | the statements of `parse_items_for_excel` compute its rows |
| Export.CollectRows | nfce_grafico.py:336-365 | the `det` loop with `continue` and `append` computes the rows |
| Export.ColumnsInRowDict | nfce_grafico.py:356-376 | each of the eight headings is a key of every row |
| Export.ExportExcel | nfce_grafico.py:368-379 | nothing happens exactly when there are no rows; the pandas error is raised exactly when there are rows but no pandas; otherwise the sheet has the eight fixed headings and one line per row |
| Export.SheetRows | nfce_grafico.py:374-376 | line `i` of the sheet holds row `i`'s date, key, code, description, quantity, unit, unit price and total in that order |
| Batch.LeStrTotal | nfce_grafico.py:501 | any two names compare one way or the other |
| Batch.LePathTotal | nfce_grafico.py:501 | any two paths compare one way or the other |
| Batch.Insert | nfce_grafico.py:501 | inserting adds one file, which goes first or leaves the old first element first |
| Batch.InsertSorted | nfce_grafico.py:501 | inserting into a sorted list keeps it sorted |
| Batch.InsertMultiset | nfce_grafico.py:501 | inserting adds exactly that file |
| Batch.SortByPath | nfce_grafico.py:501 | the sort keeps the number of files |
| Batch.SortIsSorted | nfce_grafico.py:501 | `sorted` orders the files by path |
| Batch.SortIsPermutation | nfce_grafico.py:501 | `sorted` keeps every file, as often as it occurs |
| Batch.CountInsert | nfce_grafico.py:501 | inserting a file adds its contribution to any count |
| Batch.CountSort | nfce_grafico.py:501 | sorting does not change any count over the files |
| Batch.RFind | nfce_grafico.py:478 | the last position of the character, or -1 when there is none |
| Batch.Stem | nfce_grafico.py:478 | the stem is a prefix of the name, shorter exactly when the last dot is neither first nor last |
| Batch.StemOfXmlName | nfce_grafico.py:478 | `nota.xml` has the stem `nota` |
| Batch.StemOfDotName | nfce_grafico.py:478 | `.xml` is its own stem |
| Batch.FileKey | nfce_grafico.py:459-465 | the key of a file is digits only, at most 44, and empty when it does not parse |
| Batch.OutputName | nfce_grafico.py:475-481 | the PDF is named by the key plus `.pdf`, or by the file stem when the key is empty |
| Batch.KeyNameIsDigits | nfce_grafico.py:481 | a PDF named by its key has only digits before `.pdf` |
| Batch.ProcessSingle | nfce_grafico.py:473-483 | `process_single_xml` returns the PDF name exactly when the file parses and `make_pdf` completes |
| Batch.FileRows | nfce_grafico.py:315 | the rows of a file are available exactly when it parses again |
| Batch.RunCounters | nfce_grafico.py:501-512 | `ok` counts the PDFs written; `fail` counts the files without one, plus, with a spreadsheet, the written files whose rows cannot be read |
| Batch.RunPdfs | nfce_grafico.py:501-506 | the PDFs are those written, in the order of the loop |
| Batch.RunRows | nfce_grafico.py:507-510 | with a spreadsheet, the rows are those of written files whose rows were read, in order; without one, none |
| Batch.Sheet | nfce_grafico.py:516-521 | the export is attempted exactly when a spreadsheet is asked for |
| Batch.DirectoryCounters | nfce_grafico.py:492-524 | over a directory, `ok + fail == total` plus the files whose rows failed after their PDF was written |
| Batch.DirectoryPdfs | nfce_grafico.py:501-506 | the PDFs are written in sorted path order, and the export happens exactly when asked for |
| Batch.DirectoryExport | nfce_grafico.py:516-520 | the export receives the collected rows in sorted order, and does nothing when there are none |
| Batch.SourceOutcomes | nfce_grafico.py:473-512 | with the program's own steps, a file succeeds exactly when it parses and its PDF is written, and its rows fail exactly when it succeeded but does not parse again |
| Batch.ProcessDirectory | nfce_grafico.py:492-524 | the loop with its counters and `rows_accum.extend`, then the export, computes the directory summary |
| Batch.ConvertDirectory | nfce_grafico.py:492-524 | the same loop with the program's own `process_single_xml` and `parse_items_for_excel` |

## Left out

- `draw_header`, `draw_totals`, `draw_qrcode_and_footer`: the model starts the item table at the cursor the header leaves, and starts the payment block at the cursor the totals leave. Both are parameters. The footer's cursor is discarded by `make_pdf`, and the QR image is a foreign bitmap library.
- Fonts, `setFont`, `setLineWidth` and font registration: they do not affect the text drawn or any cursor position.
- `stringWidth` is the parameter `measure`; the model proves its results for every measure.
- `datetime.fromisoformat`/`strftime` is the parameter `fromIso`; only the fall-back-to-raw-text branch is modelled exactly.
- The `float(...)` conversions of `parse_items_for_excel`: the spreadsheet numbers are kept as the decimals that would be converted, because floating point is not modelled.
- `Decimal` syntax beyond an optional sign, digits and an optional point: exponents, `NaN`, `Infinity` and underscores are rejected by the model's parser, which accepts only what an NFC-e amount can hold.
- `Decimal` contexts other than the default 28-digit precision, and signals other than `InvalidOperation`.
- `str.isdigit` and `str.lower` on non-ASCII characters: the model accepts only ASCII digits and lower-cases only ASCII letters.
- Paths are compared component by component with case-sensitive character order, as `sorted` does for POSIX paths; Windows' case-insensitive path ordering is not modelled.
- The file system: `scan_xmls`, `is_xml_file`, `ensure_dir`, `mkdir` and `ET.parse`. Each scanned file is an `XmlSource` carrying its parse result, whether `make_pdf` completes and whether the re-read succeeds.
- Export.ExportExcel: the `pandas` DataFrame construction and `to_excel` writing are I/O, and failures inside them are not modelled.
- `log_fn`, `progress_fn` and the `[ERRO EXCEL]` logging are not modelled, because they change nothing the program returns.
- Batch.ProcessSingle: `make_pdf` is not re-run on the document. Whether it completes is the file's `pdfWritten` flag, because it also fails on things outside this model (fonts, the QR image, the PDF write). Its item table is modelled separately: `Layout.Table` with the row texts `Layout.ItemTextsAsWritten`.
- The `DanfeGUI` class, Tkinter, threading and the argparse `main`: user interface and concurrency.

## Findings

| source | as written | input that shows it | evidently intended | confidence | as-written member | corrected member |
|---|---|---|---|---|---|---|
| nfce_grafico.py:195-196 | the unit price and total columns pass the raw `get_text` of `vUnCom`/`vProd` to `br_currency`, without the `or '0'` default the quantity column has at line 193; `Decimal("")` raises, so the whole PDF fails | a `det` without a `prod`, or a `prod` without `vUnCom` or `vProd` | an absent amount shows as `0,00`, like the absent quantity, which shows as `0,0000` | not executed | Layout.ItemTextsAsWritten, Layout.AsWrittenRejectsMissingPrice, Layout.AsWrittenTableFails | Layout.ItemTexts, Layout.NoProductRow, Layout.TablesAgree |
