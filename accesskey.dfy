/** The 44-digit access key (chave de acesso) of an NFC-e: how
    `robust_extract_chave` finds it in the document and how `format_chave`
    displays it in groups of four. */
module AccessKey {

  import opened Base
  import opened Text
  import opened Xml

  /** Number of digits of an access key. */
  const KeyLength: nat := 44

  /** `(inf.get("Id") or "")` of the `infNFe` element, or `""` when the
      document has no `infNFe`. */
  function IdAttribute(root: Element): string
  {
    match InfNFe(root)
    case None => ""
    case Some(inf) => if "Id" in inf.attrs then inf.attrs["Id"] else ""
  }

  /** The first candidate: the `Id` attribute with every `NFe` removed. */
  function IdCandidate(root: Element): string
  {
    RemoveAll(IdAttribute(root), "NFe")
  }

  /** The second candidate: the stripped text of the first
      `.//protNFe/infProt/chNFe`, or `""` when there is no such element or
      its text is empty. */
  function ProtocolCandidate(root: Element): (r: string)
    ensures Trimmed(r)
  {
    match FindBelow(root, Q("protNFe"), [Q("infProt"), Q("chNFe")])
    case None => ""
    case Some(ch) => if ch.text.Some? && ch.text.value != "" then Strip(ch.text.value) else ""
  }

  /** `robust_extract_chave(root)`: the `Id` candidate unless it is empty,
      then the protocol candidate; of the chosen text only the digits are
      kept, and at most the first 44 of them. */
  function RobustExtractChave(root: Element): (r: string)
    ensures AllDigits(r) && |r| <= KeyLength
    ensures IdCandidate(root) != "" ==> r == Take(DigitsOnly(IdCandidate(root)), KeyLength)
    ensures IdCandidate(root) == "" ==> r == Take(DigitsOnly(ProtocolCandidate(root)), KeyLength)
  {
    var chave := IdCandidate(root);
    var chosen := if chave != "" then chave else ProtocolCandidate(root);
    Take(DigitsOnly(chosen), KeyLength)
  }

  /** The result is a prefix of the digits of the chosen candidate, and is
      all of them when there are at most 44. */
  lemma ExtractIsDigitPrefix(root: Element)
    ensures var chosen := if IdCandidate(root) != "" then IdCandidate(root) else ProtocolCandidate(root);
      var ds := DigitsOnly(chosen);
      var r := RobustExtractChave(root);
      r == ds[..|r|] && (|ds| <= KeyLength ==> r == ds)
  {
  }

  /** An `Id` that holds no digits still wins over the protocol's key: the
      fallback is tried only when the `Id` text is empty before filtering. */
  lemma DigitlessIdBlocksFallback(root: Element)
    requires IdCandidate(root) != "" && DigitsOnly(IdCandidate(root)) == ""
    ensures RobustExtractChave(root) == ""
  {
  }

  /** A standard `Id`, `NFe` followed by the 44 digits of the key, yields
      exactly those digits. */
  lemma StandardId(root: Element, key: string)
    requires AllDigits(key) && |key| == KeyLength
    requires IdAttribute(root) == "NFe" + key
    ensures RobustExtractChave(root) == key
  {
    RemoveAllPrefix("NFe", key);
    RemoveAllDigits(key, "NFe");
    DigitsOnlyOfDigits(key);
  }

  /** Without an `infNFe` (or without an `Id`), the key comes from the
      authorisation protocol. */
  lemma NoIdUsesProtocol(root: Element, key: string)
    requires IdAttribute(root) == ""
    requires AllDigits(key) && |key| == KeyLength
    requires ProtocolCandidate(root) == key
    ensures RobustExtractChave(root) == key
  {
    DigitsOnlyOfDigits(key);
  }

  lemma RemoveAllPrefix(pat: string, s: string)
    requires pat != []
    ensures RemoveAll(pat + s, pat) == RemoveAll(s, pat)
  {
    var t := pat + s;
    assert t[..|pat|] == pat && t[|pat|..] == s;
  }

  /** Deleting a pattern that starts with a non-digit leaves a digit string
      alone. */
  lemma {:induction false} RemoveAllDigits(s: string, pat: string)
    requires AllDigits(s) && pat != [] && !IsDigit(pat[0])
    ensures RemoveAll(s, pat) == s
    decreases |s|
  {
    if |s| >= |pat| {
      assert s[..|pat|][0] == s[0];
      RemoveAllDigits(s[1..], pat);
      assert [s[0]] + s[1..] == s;
    }
  }

  // ---------------------------------------------------------------------
  // Display
  // ---------------------------------------------------------------------

  /** `[d[i:i+n] for i in range(0, len(d), n)]`: consecutive pieces of
      length `n`, the last one possibly shorter. */
  function Chunks(d: string, n: nat): (r: seq<string>)
    requires n > 0
    ensures forall i :: 0 <= i < |r| ==> 1 <= |r[i]| <= n
    ensures forall i :: 0 <= i < |r| - 1 ==> |r[i]| == n
    ensures d == [] <==> r == []
    decreases |d|
  {
    if d == [] then [] else [Take(d, n)] + Chunks(d[Min(|d|, n)..], n)
  }

  function Concat(ss: seq<string>): string
  {
    if ss == [] then "" else ss[0] + Concat(ss[1..])
  }

  /** `format_chave(ch)`: the digits of `ch` in groups of four separated by
      single spaces. */
  function FormatChave(ch: string): string
  {
    Unwords(Chunks(DigitsOnly(ch), 4))
  }

  /** The pieces put back together give the original string. */
  lemma {:induction false} ConcatChunks(d: string, n: nat)
    requires n > 0
    ensures Concat(Chunks(d, n)) == d
    decreases |d|
  {
    if d != [] {
      var k := Min(|d|, n);
      ConcatChunks(d[k..], n);
      assert Chunks(d, n)[1..] == Chunks(d[k..], n);
      assert d[..k] + d[k..] == d;
    }
  }

  lemma {:induction false} ChunksOfDigits(d: string, n: nat)
    requires n > 0 && AllDigits(d)
    ensures forall i :: 0 <= i < |Chunks(d, n)| ==> AllDigits(Chunks(d, n)[i])
    decreases |d|
  {
    if d != [] {
      var k := Min(|d|, n);
      ChunksOfDigits(d[k..], n);
      var r := Chunks(d, n);
      assert r[1..] == Chunks(d[k..], n);
      forall i | 0 <= i < |r|
        ensures AllDigits(r[i])
      {
        if i > 0 {
          assert r[i] == r[1..][i - 1];
        }
      }
    }
  }

  lemma {:induction false} RemoveSpacesUnwords(ws: seq<string>)
    requires forall i :: 0 <= i < |ws| ==> NoSpace(ws[i])
    ensures RemoveChar(Unwords(ws), ' ') == Concat(ws)
  {
    if |ws| == 1 {
      RemoveCharNoSpace(ws[0]);
      assert Concat(ws) == ws[0] + Concat([]);
    } else if |ws| > 1 {
      RemoveSpacesUnwords(ws[1..]);
      RemoveCharNoSpace(ws[0]);
      RemoveCharAppend(ws[0] + " ", Unwords(ws[1..]), ' ');
      RemoveCharAppend(ws[0], " ", ' ');
      RemoveCharSingle(' ', ' ');
    }
  }

  lemma RemoveCharNoSpace(w: string)
    requires NoSpace(w)
    ensures RemoveChar(w, ' ') == w
  {
    if w != [] {
      RemoveCharNoSpace(w[1..]);
    }
  }

  /** Deleting the spaces of the display gives exactly the digits of the key,
      in order. */
  lemma FormatChaveDigits(ch: string)
    ensures RemoveChar(FormatChave(ch), ' ') == DigitsOnly(ch)
  {
    var d := DigitsOnly(ch);
    ChunksOfDigits(d, 4);
    DigitsHaveNoSpace(Chunks(d, 4));
    RemoveSpacesUnwords(Chunks(d, 4));
    ConcatChunks(d, 4);
  }

  lemma DigitsHaveNoSpace(ws: seq<string>)
    requires forall i :: 0 <= i < |ws| ==> AllDigits(ws[i])
    ensures forall i :: 0 <= i < |ws| ==> NoSpace(ws[i])
  {
    forall i, j | 0 <= i < |ws| && 0 <= j < |ws[i]|
      ensures !IsSpace(ws[i][j])
    {
      assert IsDigit(ws[i][j]);
    }
  }

  /** Splitting the display at its spaces gives the groups: each of four
      digits except the last, which has one to four. */
  lemma FormatChaveGroups(ch: string)
    ensures var gs := Words(FormatChave(ch));
      gs == Chunks(DigitsOnly(ch), 4)
      && (forall i :: 0 <= i < |gs| - 1 ==> |gs[i]| == 4)
      && (gs != [] ==> 1 <= |gs[|gs| - 1]| <= 4)
      && (forall i :: 0 <= i < |gs| ==> AllDigits(gs[i]))
  {
    var gs := Chunks(DigitsOnly(ch), 4);
    ChunksOfDigits(DigitsOnly(ch), 4);
    DigitsHaveNoSpace(gs);
    WordsUnwords(gs);
  }
}
