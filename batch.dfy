/** Batch conversion of a directory (`process_directory`): the XML files in
    sorted path order, one PDF each named after the access key or, without
    one, after the file, the success and failure counters, and the
    spreadsheet rows collected from the files whose PDF was written. */
module Batch {

  import opened Base
  import opened Text
  import opened Xml
  import opened AccessKey
  import opened Export

  // ---------------------------------------------------------------------
  // Path order
  // ---------------------------------------------------------------------

  /** Python's `<=` on strings: lexicographic by code point. */
  predicate LeStr(a: string, b: string)
    decreases |a|
  {
    a == [] || (b != [] && (a[0] < b[0] || (a[0] == b[0] && LeStr(a[1..], b[1..]))))
  }

  lemma {:induction false} LeStrTotal(a: string, b: string)
    ensures LeStr(a, b) || LeStr(b, a)
    decreases |a|
  {
    if a != [] && b != [] && a[0] == b[0] {
      LeStrTotal(a[1..], b[1..]);
    }
  }

  /** The order of paths: lexicographic on their components, each compared
      as a string. */
  predicate LePath(a: seq<string>, b: seq<string>)
    decreases |a|
  {
    a == [] || (b != [] && ((LeStr(a[0], b[0]) && a[0] != b[0]) || (a[0] == b[0] && LePath(a[1..], b[1..]))))
  }

  lemma {:induction false} LePathTotal(a: seq<string>, b: seq<string>)
    ensures LePath(a, b) || LePath(b, a)
    decreases |a|
  {
    if a != [] && b != [] {
      if a[0] == b[0] {
        LePathTotal(a[1..], b[1..]);
      } else {
        LeStrTotal(a[0], b[0]);
      }
    }
  }

  // ---------------------------------------------------------------------
  // One file
  // ---------------------------------------------------------------------

  /** One XML file found by the scan: its path as components (the last one
      is the file name), the document its XML parses to (`None` when
      `ET.parse` raises), whether `make_pdf` completes for it, and whether
      the later read for the spreadsheet parses it again. */
  datatype XmlSource = XmlSource(path: seq<string>, doc: Option<Element>, pdfWritten: bool, rereadOk: bool)

  /** `Path.name`: the last component. */
  function Name(x: XmlSource): string
  {
    if x.path == [] then "" else x.path[|x.path| - 1]
  }

  /** Position of the last `c` in `s`, or `-1` (`str.rfind`). */
  function RFind(s: string, c: char): (i: int)
    ensures -1 <= i < |s|
    ensures 0 <= i ==> s[i] == c
    ensures forall j :: i < j < |s| ==> s[j] != c
  {
    if s == [] then -1
    else if s[|s| - 1] == c then |s| - 1
    else RFind(s[..|s| - 1], c)
  }

  /** `PurePath.stem` of a file name: the name without its last suffix; a
      name whose only dot is the first or the last character keeps it. */
  function Stem(name: string): (r: string)
    ensures StartsWith(name, r)
    ensures var i := RFind(name, '.'); 0 < i < |name| - 1 <==> |r| < |name|
  {
    var i := RFind(name, '.');
    if 0 < i < |name| - 1 then name[..i] else name
  }

  /** A file name keeps everything before its last dot. */
  lemma StemOfXmlName()
    ensures Stem("nota.xml") == "nota"
  {
    assert "nota.xml"[..7] == "nota.xm" && "nota.xm"[..6] == "nota.x" && "nota.x"[..5] == "nota.";
  }

  /** A name whose only dot comes first is its own stem. */
  lemma StemOfDotName()
    ensures Stem(".xml") == ".xml"
  {
    assert ".xml"[..3] == ".xm" && ".xm"[..2] == ".x" && ".x"[..1] == ".";
  }

  /** `extract_chave_from_file`: the key of the document, or `""` when the
      file does not parse. */
  function FileKey(x: XmlSource): (r: string)
    ensures AllDigits(r) && |r| <= KeyLength
    ensures x.doc.None? ==> r == ""
  {
    if x.doc.None? then "" else RobustExtractChave(x.doc.value)
  }

  /** The name of the PDF of `process_single_xml`: the key, or the stem of
      the file when there is no key, with `.pdf` appended. */
  function OutputName(x: XmlSource): (r: string)
    ensures EndsWith(r, ".pdf")
    ensures FileKey(x) != "" ==> r[..|r| - 4] == FileKey(x)
    ensures FileKey(x) == "" ==> r[..|r| - 4] == Stem(Name(x))
  {
    var key := FileKey(x);
    var r := (if key != "" then key else Stem(Name(x))) + ".pdf";
    assert r[|r| - 4..] == ".pdf";
    r
  }

  /** A name that comes from a key is all digits before `.pdf`, so it never
      collides with a stem that holds a letter. */
  lemma KeyNameIsDigits(x: XmlSource)
    requires FileKey(x) != ""
    ensures AllDigits(OutputName(x)[..|OutputName(x)| - 4])
  {
  }

  /** `process_single_xml` completes (the PDF is written) exactly when the
      file parses and `make_pdf` completes; it then returns the PDF's
      name. */
  function ProcessSingle(x: XmlSource): (r: Option<string>)
    ensures r.Some? <==> x.doc.Some? && x.pdfWritten
    ensures r.Some? ==> r.value == OutputName(x)
  {
    if x.doc.Some? && x.pdfWritten then Some(OutputName(x)) else None
  }

  /** `parse_items_for_excel` of the file: its rows, or `None` when the
      file does not parse again. */
  function FileRows(x: XmlSource, fromIso: string -> Option<string>): (r: Option<seq<Row>>)
    ensures r.Some? <==> x.doc.Some? && x.rereadOk
  {
    if x.doc.Some? && x.rereadOk then Some(ItemsForExcel(x.doc.value, fromIso)) else None
  }

  // ---------------------------------------------------------------------
  // The directory loop
  // ---------------------------------------------------------------------

  /** `process_single_xml` and `parse_items_for_excel` as the loop sees
      them: the name of the PDF written for a file or `None` when an
      exception escapes, and the rows of a file or `None` when it raises.
      `ProcessSingle` and `FileRowsOf(fromIso)` are the program's; the loop
      is stated for any pair, so that its proofs do not depend on how a name
      or a row is computed. */
  type Single = XmlSource -> Option<string>
  type Items = XmlSource -> Option<seq<Row>>

  function FileRowsOf(fromIso: string -> Option<string>): Items
  {
    x => FileRows(x, fromIso)
  }

  /** What the loop accumulates: the counters, the PDFs written and the
      spreadsheet rows. */
  datatype Tally = Tally(ok: nat, fail: nat, pdfs: seq<string>, rows: seq<Row>)

  /** One iteration of the loop of `process_directory`: a file whose PDF is
      not written counts as a failure; otherwise it counts as a success and,
      when a spreadsheet is asked for, its rows are appended, or a failure
      is counted as well when they cannot be read. */
  function Step(t: Tally, x: XmlSource, excel: bool, single: Single, items: Items): Tally
  {
    match single(x)
    case None => Tally(t.ok, t.fail + 1, t.pdfs, t.rows)
    case Some(pdf) =>
      if !excel then Tally(t.ok + 1, t.fail, t.pdfs + [pdf], t.rows)
      else
        match items(x)
        case Some(rs) => Tally(t.ok + 1, t.fail, t.pdfs + [pdf], t.rows + rs)
        case None => Tally(t.ok + 1, t.fail + 1, t.pdfs + [pdf], t.rows)
  }

  /** The loop over the files `xs`, in the given order, from the tally `t`. */
  function Run(t: Tally, xs: seq<XmlSource>, excel: bool, single: Single, items: Items): Tally
    decreases |xs|
  {
    if xs == [] then t else Run(Step(t, xs[0], excel, single, items), xs[1..], excel, single, items)
  }

  /** A file whose PDF is written. */
  function Succeeded(single: Single): XmlSource -> bool
  {
    x => single(x).Some?
  }

  /** A file whose PDF is written but whose rows cannot be read. */
  function RowsFailed(single: Single, items: Items): XmlSource -> bool
  {
    x => single(x).Some? && items(x).None?
  }

  /** The PDFs of the files that are written, in order. */
  function WrittenNames(xs: seq<XmlSource>, single: Single): seq<string>
  {
    if xs == [] then []
    else (if single(xs[0]).Some? then [single(xs[0]).value] else []) + WrittenNames(xs[1..], single)
  }

  /** The rows of the files that are written and whose rows can be read, in
      order. */
  function CollectedRows(xs: seq<XmlSource>, single: Single, items: Items): seq<Row>
  {
    if xs == [] then []
    else
      (if single(xs[0]).Some? && items(xs[0]).Some? then items(xs[0]).value else [])
      + CollectedRows(xs[1..], single, items)
  }

  /** `ok` counts the PDFs written and `fail` the files whose PDF is not,
      plus, with a spreadsheet, the written files whose rows cannot be
      read. */
  lemma {:induction false} RunCounters(t: Tally, xs: seq<XmlSource>, excel: bool, single: Single, items: Items)
    ensures var r := Run(t, xs, excel, single, items);
      r.ok == t.ok + Count(xs, Succeeded(single))
      && r.fail == t.fail + (|xs| - Count(xs, Succeeded(single)))
                   + (if excel then Count(xs, RowsFailed(single, items)) else 0)
    decreases |xs|
  {
    if xs != [] {
      RunCounters(Step(t, xs[0], excel, single, items), xs[1..], excel, single, items);
    }
  }

  /** The PDFs are those of the written files, in the order of the loop. */
  lemma {:induction false} RunPdfs(t: Tally, xs: seq<XmlSource>, excel: bool, single: Single, items: Items)
    ensures Run(t, xs, excel, single, items).pdfs == t.pdfs + WrittenNames(xs, single)
    decreases |xs|
  {
    if xs != [] {
      RunPdfs(Step(t, xs[0], excel, single, items), xs[1..], excel, single, items);
      AppendAssoc(t.pdfs, (if single(xs[0]).Some? then [single(xs[0]).value] else []), WrittenNames(xs[1..], single));
    }
  }

  /** Rows are collected only with a spreadsheet, and only from written
      files, in the order of the loop. */
  lemma {:induction false} RunRows(t: Tally, xs: seq<XmlSource>, excel: bool, single: Single, items: Items)
    ensures Run(t, xs, excel, single, items).rows == t.rows + (if excel then CollectedRows(xs, single, items) else [])
    decreases |xs|
  {
    if xs != [] {
      RunRows(Step(t, xs[0], excel, single, items), xs[1..], excel, single, items);
      if excel {
        var x := xs[0];
        AppendAssoc(t.rows, (if single(x).Some? && items(x).Some? then items(x).value else []),
                    CollectedRows(xs[1..], single, items));
      } else {
        assert t.rows + [] == t.rows;
      }
    }
  }

  // ---------------------------------------------------------------------
  // Sorting
  // ---------------------------------------------------------------------

  /** Adjacent files are in path order. */
  predicate SortedByPath(xs: seq<XmlSource>)
  {
    forall i :: 0 <= i < |xs| - 1 ==> LePath(xs[i].path, xs[i + 1].path)
  }

  /** `x` placed in front of the first file of `xs` that it precedes. */
  function Insert(x: XmlSource, xs: seq<XmlSource>): (r: seq<XmlSource>)
    ensures |r| == |xs| + 1
    ensures r[0] == x || (xs != [] && r[0] == xs[0])
  {
    if xs == [] || LePath(x.path, xs[0].path) then [x] + xs
    else [xs[0]] + Insert(x, xs[1..])
  }

  lemma {:induction false} InsertSorted(x: XmlSource, xs: seq<XmlSource>)
    requires SortedByPath(xs)
    ensures SortedByPath(Insert(x, xs))
  {
    if xs != [] && !LePath(x.path, xs[0].path) {
      LePathTotal(x.path, xs[0].path);
      InsertSorted(x, xs[1..]);
      var r := Insert(x, xs);
      var tail := Insert(x, xs[1..]);
      assert r == [xs[0]] + tail;
      forall i | 0 <= i < |r| - 1
        ensures LePath(r[i].path, r[i + 1].path)
      {
        if i > 0 {
          assert r[i] == tail[i - 1] && r[i + 1] == tail[i];
        } else if tail[0] != x {
          assert xs[1..][0] == xs[1];
        }
      }
    }
  }

  lemma {:induction false} InsertMultiset(x: XmlSource, xs: seq<XmlSource>)
    ensures multiset(Insert(x, xs)) == multiset(xs) + multiset{x}
  {
    if xs != [] && !LePath(x.path, xs[0].path) {
      InsertMultiset(x, xs[1..]);
      assert xs == [xs[0]] + xs[1..];
    }
  }

  /** `sorted(xmls)`: the files in path order (an insertion sort). */
  function SortByPath(xs: seq<XmlSource>): (r: seq<XmlSource>)
    ensures |r| == |xs|
  {
    if xs == [] then [] else Insert(xs[0], SortByPath(xs[1..]))
  }

  /** The sorted files are in path order... */
  lemma {:induction false} SortIsSorted(xs: seq<XmlSource>)
    ensures SortedByPath(SortByPath(xs))
  {
    if xs != [] {
      SortIsSorted(xs[1..]);
      InsertSorted(xs[0], SortByPath(xs[1..]));
    }
  }

  /** ... and are the same files. */
  lemma {:induction false} SortIsPermutation(xs: seq<XmlSource>)
    ensures multiset(SortByPath(xs)) == multiset(xs)
  {
    if xs != [] {
      SortIsPermutation(xs[1..]);
      InsertMultiset(xs[0], SortByPath(xs[1..]));
      assert xs == [xs[0]] + xs[1..];
    }
  }

  lemma {:induction false} CountInsert(x: XmlSource, xs: seq<XmlSource>, p: XmlSource -> bool)
    ensures Count(Insert(x, xs), p) == Count([x], p) + Count(xs, p)
  {
    if xs != [] && !LePath(x.path, xs[0].path) {
      CountInsert(x, xs[1..], p);
      assert [x][1..] == [];
    }
  }

  /** Counting does not depend on the order, so the counters do not depend
      on the sort. */
  lemma {:induction false} CountSort(xs: seq<XmlSource>, p: XmlSource -> bool)
    ensures Count(SortByPath(xs), p) == Count(xs, p)
  {
    if xs != [] {
      CountSort(xs[1..], p);
      CountInsert(xs[0], SortByPath(xs[1..]), p);
      assert [xs[0]][1..] == [];
    }
  }

  // ---------------------------------------------------------------------
  // process_directory
  // ---------------------------------------------------------------------

  /** The result of `process_directory`: the counters and the total, the
      PDFs written in order, and what `export_excel` did when a spreadsheet
      was asked for. */
  datatype Summary = Summary(ok: nat, fail: nat, total: nat, pdfs: seq<string>, sheet: Option<Outcome>)

  /** `process_directory` over the scanned files `xmls`: the loop over them
      in sorted order, then the export of the collected rows when a
      spreadsheet is asked for (`excel`); `pandas` says whether pandas is
      installed. */
  function DirectoryWith(xmls: seq<XmlSource>, excel: bool, pandas: bool, single: Single, items: Items): Summary
  {
    var t := Run(Tally(0, 0, [], []), SortByPath(xmls), excel, single, items);
    Summary(t.ok, t.fail, |xmls|, t.pdfs, Sheet(t.rows, excel, pandas))
  }

  /** The export after the loop: only when a spreadsheet is asked for. */
  function Sheet(rows: seq<Row>, excel: bool, pandas: bool): (r: Option<Outcome>)
    ensures r.Some? <==> excel
  {
    if excel then Some(ExportExcel(rows, pandas)) else None
  }

  /** The same with the program's `process_single_xml` and
      `parse_items_for_excel`. */
  function Directory(xmls: seq<XmlSource>, excel: bool, pandas: bool, fromIso: string -> Option<string>): Summary
  {
    DirectoryWith(xmls, excel, pandas, ProcessSingle, FileRowsOf(fromIso))
  }

  /** The counters of a directory: `ok` is the number of PDFs written and
      `fail` the number of files without one plus, with a spreadsheet, the
      written files whose rows cannot be read, so that both counters grow
      for those. */
  lemma DirectoryCounters(xmls: seq<XmlSource>, excel: bool, pandas: bool, single: Single, items: Items)
    ensures var r := DirectoryWith(xmls, excel, pandas, single, items);
      var extra := if excel then Count(xmls, RowsFailed(single, items)) else 0;
      r.ok == Count(xmls, Succeeded(single))
      && r.fail == (|xmls| - Count(xmls, Succeeded(single))) + extra
      && r.ok + r.fail == r.total + extra
  {
    var s := SortByPath(xmls);
    var t := Run(Tally(0, 0, [], []), s, excel, single, items);
    RunCounters(Tally(0, 0, [], []), s, excel, single, items);
    var ok := Count(s, Succeeded(single));
    var bad := Count(s, RowsFailed(single, items));
    assert t.ok == ok && t.fail == (|s| - ok) + (if excel then bad else 0);
    CountSort(xmls, Succeeded(single));
    CountSort(xmls, RowsFailed(single, items));
  }

  /** The PDFs are written in path order, one per written file; the export
      runs exactly when a spreadsheet is asked for. */
  lemma DirectoryPdfs(xmls: seq<XmlSource>, excel: bool, pandas: bool, single: Single, items: Items)
    ensures var r := DirectoryWith(xmls, excel, pandas, single, items);
      r.pdfs == WrittenNames(SortByPath(xmls), single) && (excel <==> r.sheet.Some?)
  {
    RunPdfs(Tally(0, 0, [], []), SortByPath(xmls), excel, single, items);
    assert [] + WrittenNames(SortByPath(xmls), single) == WrittenNames(SortByPath(xmls), single);
  }

  /** With a spreadsheet, the collected rows are exported, and nothing is
      exported when there are none. */
  lemma DirectoryExport(xmls: seq<XmlSource>, pandas: bool, single: Single, items: Items)
    ensures var r := DirectoryWith(xmls, true, pandas, single, items);
      var rows := CollectedRows(SortByPath(xmls), single, items);
      r.sheet == Some(ExportExcel(rows, pandas))
      && (rows == [] ==> r.sheet == Some(NothingToExport))
  {
    var rows := CollectedRows(SortByPath(xmls), single, items);
    RunRows(Tally(0, 0, [], []), SortByPath(xmls), true, single, items);
    assert [] + rows == rows;
  }

  /** For the program's functions: a file counts as a success exactly when
      it parses and its PDF is written, and its rows fail exactly when it
      does not parse again. */
  lemma SourceOutcomes(x: XmlSource, fromIso: string -> Option<string>)
    ensures Succeeded(ProcessSingle)(x) <==> x.doc.Some? && x.pdfWritten
    ensures RowsFailed(ProcessSingle, FileRowsOf(fromIso))(x) <==> x.doc.Some? && x.pdfWritten && !x.rereadOk
  {
    assert Succeeded(ProcessSingle)(x) == ProcessSingle(x).Some?;
    assert FileRowsOf(fromIso)(x) == FileRows(x, fromIso);
  }

  /** The loop of `process_directory`, with the export after it. */
  method ProcessDirectory(xmls: seq<XmlSource>, excel: bool, pandas: bool, single: Single, items: Items)
    returns (r: Summary)
    ensures r == DirectoryWith(xmls, excel, pandas, single, items)
  {
    var files := SortByPath(xmls);
    var total := |xmls|;
    var ok, fail := 0, 0;
    var pdfs: seq<string> := [];
    var rowsAccum: seq<Row> := [];
    var i := 0;
    assert files[0..] == files;
    while i < |files|
      invariant 0 <= i <= |files|
      invariant Run(Tally(ok, fail, pdfs, rowsAccum), files[i..], excel, single, items)
        == Run(Tally(0, 0, [], []), files, excel, single, items)
    {
      assert files[i..][0] == files[i] && files[i..][1..] == files[i + 1..];
      var xp := files[i];
      var outPdf := single(xp);
      if outPdf.Some? {
        ok := ok + 1;
        pdfs := pdfs + [outPdf.value];
        if excel {
          var rows := items(xp);
          if rows.Some? {
            rowsAccum := rowsAccum + rows.value;
          } else {
            fail := fail + 1;
          }
        }
      } else {
        fail := fail + 1;
      }
      i := i + 1;
    }
    assert files[i..] == [];
    var sheet: Option<Outcome> := None;
    if excel {
      sheet := Some(ExportExcel(rowsAccum, pandas));
    }
    r := Summary(ok, fail, total, pdfs, sheet);
  }

  /** `process_directory` as the source runs it. */
  method ConvertDirectory(xmls: seq<XmlSource>, excel: bool, pandas: bool, fromIso: string -> Option<string>)
    returns (r: Summary)
    ensures r == Directory(xmls, excel, pandas, fromIso)
  {
    r := ProcessDirectory(xmls, excel, pandas, ProcessSingle, FileRowsOf(fromIso));
  }
}
