/** `wrap_text`: greedy word wrapping of a text into lines no wider than a
    limit under a width function, with an optional cap on the number of
    lines, each line drawn one line height below the previous. The width
    function (reportlab's `stringWidth` for the current font) is a
    parameter. */
module Wrap {

  import opened Base
  import opened Text
  import opened Canvas

  /** What joining `cur` and the word `w` with a space and stripping gives:
      `w` alone when `cur` is empty. */
  function Join(cur: string, w: string): string
  {
    if cur == "" then w else cur + " " + w
  }

  /** The lines the loop of `wrap_text` emits for the remaining words `ws`
      when the line being built is `cur`, including the final `cur` when it
      is not empty. */
  function WrapLines(ws: seq<string>, cur: string, measure: string -> real, width: real): seq<string>
    decreases |ws|
  {
    if ws == [] then (if cur != "" then [cur] else [])
    else
      var test := Strip(cur + " " + ws[0]);
      if measure(test) <= width then WrapLines(ws[1..], test, measure, width)
      else [cur] + WrapLines(ws[1..], ws[0], measure, width)
  }

  /** Python's `lines[:m]`, or `lines` itself when `m` is `None`; a negative
      `m` counts from the end. */
  function SliceTo<T>(s: seq<T>, m: Option<int>): (r: seq<T>)
    ensures |r| <= |s| && r == s[..|r|]
    ensures m.None? ==> r == s
    ensures m.Some? && m.value >= 0 ==> |r| == Min(|s|, m.value)
    ensures m.Some? && m.value < 0 ==> |r| == Max(0, |s| + m.value)
  {
    match m
    case None => s
    case Some(k) =>
      if k >= 0 then Take(s, k)
      else s[..Max(0, |s| + k)]
  }

  function LineText(lines: seq<string>, i: nat, x: real, y: real, lineHeight: real): Instr
    requires i < |lines|
  {
    Text(Left, x, y - (i as real) * lineHeight, lines[i])
  }

  /** One left-aligned text per line, the `i`-th `i` line heights below `y`. */
  function LineOps(lines: seq<string>, x: real, y: real, lineHeight: real): (r: seq<Instr>)
    ensures |r| == |lines|
    ensures forall i :: 0 <= i < |lines| ==> r[i] == Text(Left, x, y - (i as real) * lineHeight, lines[i])
  {
    seq(|lines|, i requires 0 <= i < |lines| => LineText(lines, i, x, y, lineHeight))
  }

  /** The lines `wrap_text` draws. */
  function WrappedLines(text: string, measure: string -> real, width: real, maxLines: Option<int>): seq<string>
  {
    SliceTo(WrapLines(Words(text), "", measure, width), maxLines)
  }

  /** `wrap_text(c, text, x, y, width, line_height, max_lines)`: the loop over
      the words, the cap on the number of lines, and one left-aligned text
      per line, each `lineHeight` below the previous. Returns the cursor
      below the last line and the number of lines, as the source does, and
      the lines and the drawing instructions. */
  method WrapText(text: string, x: real, y: real, width: real, lineHeight: real,
                  maxLines: Option<int>, measure: string -> real)
    returns (newY: real, used: nat, lines: seq<string>, drawn: seq<Instr>)
    ensures lines == WrappedLines(text, measure, width, maxLines)
    ensures used == |lines| && newY == y - (used as real) * lineHeight
    ensures drawn == LineOps(lines, x, y, lineHeight)
    ensures forall i :: 0 <= i < |lines| ==>
      drawn[i] == Text(Left, x, y - (i as real) * lineHeight, lines[i])
  {
    var all := GreedyLines(Words(text), measure, width);
    lines := SliceTo(all, maxLines);
    drawn := DrawLines(lines, x, y, lineHeight);
    used := |lines|;
    newY := y - (used as real) * lineHeight;
  }

  /** The word loop of `wrap_text`, up to and including the final line. */
  method GreedyLines(words: seq<string>, measure: string -> real, width: real)
    returns (lines: seq<string>)
    ensures lines == WrapLines(words, "", measure, width)
  {
    var cur := "";
    lines := [];
    var i := 0;
    while i < |words|
      invariant 0 <= i <= |words|
      invariant lines + WrapLines(words[i..], cur, measure, width) == WrapLines(words, "", measure, width)
    {
      var w := words[i];
      WrapStep(words[i..], cur, measure, width);
      assert words[i..][0] == w && words[i..][1..] == words[i + 1..];
      var test := Strip(cur + " " + w);
      if measure(test) <= width {
        cur := test;
      } else {
        assert lines + ([cur] + WrapLines(words[i + 1..], w, measure, width))
            == (lines + [cur]) + WrapLines(words[i + 1..], w, measure, width);
        lines := lines + [cur];
        cur := w;
      }
      i := i + 1;
    }
    assert words[i..] == [];
    if cur != "" {
      lines := lines + [cur];
    } else {
      assert lines + [] == lines;
    }
  }

  /** The drawing loop of `wrap_text`. */
  method DrawLines(lines: seq<string>, x: real, y: real, lineHeight: real) returns (drawn: seq<Instr>)
    ensures drawn == LineOps(lines, x, y, lineHeight)
  {
    drawn := [];
    var j := 0;
    while j < |lines|
      invariant 0 <= j <= |lines| && |drawn| == j
      invariant forall k :: 0 <= k < j ==> drawn[k] == Text(Left, x, y - (k as real) * lineHeight, lines[k])
    {
      drawn := drawn + [Text(Left, x, y - (j as real) * lineHeight, lines[j])];
      j := j + 1;
    }
  }

  // ---------------------------------------------------------------------
  // Properties of the wrapping
  // ---------------------------------------------------------------------

  /** One turn of the loop: the next word joins the line being built when
      the result fits, and otherwise closes it and starts the next line. */
  lemma WrapStep(ws: seq<string>, cur: string, measure: string -> real, width: real)
    requires ws != []
    ensures var test := Strip(cur + " " + ws[0]);
      WrapLines(ws, cur, measure, width)
      == if measure(test) <= width then WrapLines(ws[1..], test, measure, width)
         else [cur] + WrapLines(ws[1..], ws[0], measure, width)
  {
  }

  lemma TailWords(ws: seq<string>)
    requires ws != [] && forall i :: 0 <= i < |ws| ==> IsWord(ws[i])
    ensures forall i :: 0 <= i < |ws[1..]| ==> IsWord(ws[1..][i])
  {
    forall i | 0 <= i < |ws[1..]|
      ensures IsWord(ws[1..][i])
    {
      assert ws[1..][i] == ws[i + 1];
    }
  }

  lemma StripFrontSpace(t: string)
    ensures Strip(" " + t) == Strip(t)
  {
    var s := " " + t;
    assert s[1..] == t;
    assert LeadingSpaces(s) == 1 + LeadingSpaces(t);
    assert s[LeadingSpaces(s)..] == t[LeadingSpaces(t)..];
  }

  /** For a trimmed line and a word, the stripped test string is the line
      and the word joined by one space. */
  lemma StripJoin(cur: string, w: string)
    requires Trimmed(cur) && IsWord(w)
    ensures Strip(cur + " " + w) == Join(cur, w)
  {
    if cur == "" {
      assert cur + " " + w == " " + w;
      StripFrontSpace(w);
      StripTrimmed(w);
    } else {
      var s := cur + " " + w;
      assert s[0] == cur[0] && s[|s| - 1] == w[|w| - 1];
      StripTrimmed(s);
    }
  }

  /** The lines that are not empty. */
  function NonEmpty(ls: seq<string>): (r: seq<string>)
    ensures forall i :: 0 <= i < |r| ==> r[i] != ""
  {
    if ls == [] then [] else (if ls[0] != "" then [ls[0]] else []) + NonEmpty(ls[1..])
  }

  lemma {:induction false} NonEmptyAppend(a: seq<string>, b: seq<string>)
    ensures NonEmpty(a + b) == NonEmpty(a) + NonEmpty(b)
  {
    if a == [] {
      assert a + b == b;
    } else {
      assert (a + b)[1..] == a[1..] + b;
      NonEmptyAppend(a[1..], b);
    }
  }

  lemma NonEmptyOfNonEmpty(ws: seq<string>)
    requires forall i :: 0 <= i < |ws| ==> ws[i] != ""
    ensures NonEmpty(ws) == ws
  {
    if ws != [] {
      NonEmptyOfNonEmpty(ws[1..]);
    }
  }

  lemma UnwordsStartsNonEmpty(ws: seq<string>)
    requires ws != [] && ws[0] != ""
    ensures Unwords(ws) != ""
  {
  }

  /** A line made of `a`, a space and `b` reads, joined with what follows, as
      `a` and `b` joined separately. */
  lemma UnwordsMerge(a: string, b: string, rest: seq<string>)
    ensures Unwords([a + " " + b] + rest) == Unwords([a, b] + rest)
  {
    UnwordsCons(a + " " + b, rest);
    UnwordsCons(a, [b] + rest);
    UnwordsCons(b, rest);
    assert [a, b] + rest == [a] + ([b] + rest);
  }

  /** Joining the non-empty lines gives back the line being built followed by
      the remaining words, all joined by single spaces. */
  lemma {:induction false} WrapLinesKeepsWords(ws: seq<string>, cur: string, measure: string -> real, width: real)
    requires forall i :: 0 <= i < |ws| ==> IsWord(ws[i])
    requires Trimmed(cur)
    ensures Unwords(NonEmpty(WrapLines(ws, cur, measure, width))) == Unwords(NonEmpty([cur]) + ws)
    decreases |ws|, 1
  {
    if ws == [] {
      assert NonEmpty([cur]) + ws == NonEmpty([cur]);
    } else if measure(Strip(cur + " " + ws[0])) <= width {
      KeepsWordsFits(ws, cur, measure, width);
    } else {
      KeepsWordsSplits(ws, cur, measure, width);
    }
  }

  lemma {:induction false} KeepsWordsFits(ws: seq<string>, cur: string, measure: string -> real, width: real)
    requires ws != [] && forall i :: 0 <= i < |ws| ==> IsWord(ws[i])
    requires Trimmed(cur) && measure(Strip(cur + " " + ws[0])) <= width
    ensures Unwords(NonEmpty(WrapLines(ws, cur, measure, width))) == Unwords(NonEmpty([cur]) + ws)
    decreases |ws|, 0
  {
    var test := Strip(cur + " " + ws[0]);
    WrapStep(ws, cur, measure, width);
    TailWords(ws);
    StripJoin(cur, ws[0]);
    JoinTrimmed(cur, ws[0]);
    WrapLinesKeepsWords(ws[1..], test, measure, width);
    FitsKeepsWords(ws, cur, WrapLines(ws[1..], test, measure, width));
  }

  lemma {:induction false} KeepsWordsSplits(ws: seq<string>, cur: string, measure: string -> real, width: real)
    requires ws != [] && forall i :: 0 <= i < |ws| ==> IsWord(ws[i])
    requires Trimmed(cur) && measure(Strip(cur + " " + ws[0])) > width
    ensures Unwords(NonEmpty(WrapLines(ws, cur, measure, width))) == Unwords(NonEmpty([cur]) + ws)
    decreases |ws|, 0
  {
    WrapStep(ws, cur, measure, width);
    TailWords(ws);
    WrapLinesKeepsWords(ws[1..], ws[0], measure, width);
    SplitKeepsWords(cur, ws, WrapLines(ws[1..], ws[0], measure, width));
  }

  lemma FitsKeepsWords(ws: seq<string>, cur: string, ls: seq<string>)
    requires ws != [] && IsWord(ws[0])
    requires Unwords(NonEmpty(ls)) == Unwords(NonEmpty([Join(cur, ws[0])]) + ws[1..])
    ensures Unwords(NonEmpty(ls)) == Unwords(NonEmpty([cur]) + ws)
  {
    JoinKeepsWords(cur, ws[0], ws[1..]);
    assert [ws[0]] + ws[1..] == ws;
  }

  lemma JoinTrimmed(cur: string, w: string)
    requires Trimmed(cur) && IsWord(w)
    ensures Trimmed(Join(cur, w))
  {
    if cur != "" {
      var s := cur + " " + w;
      assert s[0] == cur[0] && s[|s| - 1] == w[|w| - 1];
    }
  }

  /** The word joining the line being built. */
  lemma JoinKeepsWords(cur: string, w: string, rest: seq<string>)
    requires IsWord(w)
    ensures Unwords(NonEmpty([Join(cur, w)]) + rest) == Unwords(NonEmpty([cur]) + ([w] + rest))
  {
    assert [Join(cur, w)][1..] == [] && [cur][1..] == [];
    assert NonEmpty([]) == [];
    assert NonEmpty([Join(cur, w)]) == [Join(cur, w)];
    if cur == "" {
      assert NonEmpty([cur]) == [];
      assert [] + ([w] + rest) == [w] + rest;
    } else {
      assert NonEmpty([cur]) == [cur];
      UnwordsMerge(cur, w, rest);
      assert [cur] + ([w] + rest) == [cur, w] + rest;
    }
  }

  /** The line being built closed and the word starting the next one. */
  lemma SplitKeepsWords(cur: string, ws: seq<string>, ls: seq<string>)
    requires ws != [] && IsWord(ws[0])
    requires Unwords(NonEmpty(ls)) == Unwords(NonEmpty([ws[0]]) + ws[1..])
    ensures Unwords(NonEmpty([cur] + ls)) == Unwords(NonEmpty([cur]) + ws)
  {
    assert [ws[0]][1..] == [];
    assert NonEmpty([]) == [];
    assert NonEmpty([ws[0]]) == [ws[0]];
    assert [ws[0]] + ws[1..] == ws;
    NonEmptyAppend([cur], ls);
    assert [cur][1..] == [];
    UnwordsStartsNonEmpty(ws);
    if cur != "" {
      assert NonEmpty([cur]) == [cur];
      UnwordsCons(cur, NonEmpty(ls));
      UnwordsCons(cur, ws);
    } else {
      assert NonEmpty([cur]) == [];
      assert [] + NonEmpty(ls) == NonEmpty(ls);
      assert [] + ws == ws;
    }
  }

  /** Without a cap, the non-empty lines joined by single spaces are the
      words of the text joined by single spaces: no word is lost, split or
      reordered. */
  lemma WrapKeepsWords(text: string, measure: string -> real, width: real)
    ensures Unwords(NonEmpty(WrappedLines(text, measure, width, None))) == Unwords(Words(text))
  {
    WrapLinesKeepsWords(Words(text), "", measure, width);
    assert NonEmpty([""]) == [];
    assert [] + Words(text) == Words(text);
  }

  /** Once a non-empty line is being built, no empty line is emitted. */
  lemma {:induction false} NoEmptyLineAfterStart(ws: seq<string>, cur: string, measure: string -> real, width: real)
    requires forall i :: 0 <= i < |ws| ==> IsWord(ws[i])
    requires cur != ""
    ensures var ls := WrapLines(ws, cur, measure, width);
      ls != [] && forall i :: 0 <= i < |ls| ==> ls[i] != ""
    decreases |ws|
  {
    if ws != [] {
      var test := Strip(cur + " " + ws[0]);
      WrapStep(ws, cur, measure, width);
      TailWords(ws);
      if measure(test) <= width {
        StripJoin2(cur, ws[0]);
        NoEmptyLineAfterStart(ws[1..], test, measure, width);
      } else {
        NoEmptyLineAfterStart(ws[1..], ws[0], measure, width);
        ConsNotEmpty(cur, WrapLines(ws[1..], ws[0], measure, width));
      }
    }
  }

  lemma ConsNotEmpty(l: string, ls: seq<string>)
    requires l != "" && forall i :: 0 <= i < |ls| ==> ls[i] != ""
    ensures forall i :: 0 <= i < |[l] + ls| ==> ([l] + ls)[i] != ""
  {
    forall i | 0 <= i < |[l] + ls|
      ensures ([l] + ls)[i] != ""
    {
      if i > 0 {
        assert ([l] + ls)[i] == ls[i - 1];
      }
    }
  }

  /** Joining a word onto anything and stripping leaves a non-empty line. */
  lemma StripJoin2(cur: string, w: string)
    requires IsWord(w)
    ensures Strip(cur + " " + w) != ""
  {
    var s := cur + " " + w;
    assert !IsSpace(s[|s| - 1]);
    assert TrailingSpaces(s) == 0;
  }

  /** A line is acceptable when it fits or when it is one of the words
      (a word wider than the limit gets a line of its own). */
  predicate Acceptable(l: string, all: seq<string>, measure: string -> real, width: real)
  {
    l == "" || measure(l) <= width || l in all
  }

  predicate AllAcceptable(ls: seq<string>, all: seq<string>, measure: string -> real, width: real)
  {
    forall i :: 0 <= i < |ls| ==> Acceptable(ls[i], all, measure, width)
  }

  lemma ConsAcceptable(l: string, ls: seq<string>, all: seq<string>, measure: string -> real, width: real)
    requires Acceptable(l, all, measure, width) && AllAcceptable(ls, all, measure, width)
    ensures AllAcceptable([l] + ls, all, measure, width)
  {
    forall i | 0 <= i < |[l] + ls|
      ensures Acceptable(([l] + ls)[i], all, measure, width)
    {
      if i > 0 {
        assert ([l] + ls)[i] == ls[i - 1];
      }
    }
  }

  lemma TailIn(ws: seq<string>, all: seq<string>)
    requires ws != [] && forall i :: 0 <= i < |ws| ==> ws[i] in all
    ensures forall i :: 0 <= i < |ws[1..]| ==> ws[1..][i] in all
  {
    forall i | 0 <= i < |ws[1..]|
      ensures ws[1..][i] in all
    {
      assert ws[1..][i] == ws[i + 1];
    }
  }

  /** Every line emitted is empty, fits, or is one of the words. */
  lemma {:induction false} LinesAcceptable(ws: seq<string>, all: seq<string>, cur: string,
                                            measure: string -> real, width: real)
    requires forall i :: 0 <= i < |ws| ==> ws[i] in all
    requires Acceptable(cur, all, measure, width)
    ensures AllAcceptable(WrapLines(ws, cur, measure, width), all, measure, width)
    decreases |ws|
  {
    if ws != [] {
      var test := Strip(cur + " " + ws[0]);
      WrapStep(ws, cur, measure, width);
      TailIn(ws, all);
      if measure(test) <= width {
        LinesAcceptable(ws[1..], all, test, measure, width);
      } else {
        LinesAcceptable(ws[1..], all, ws[0], measure, width);
        ConsAcceptable(cur, WrapLines(ws[1..], ws[0], measure, width), all, measure, width);
      }
    }
  }

  /** The first line is empty exactly when the first word alone is wider than
      the limit; the lines after the first are never empty. */
  lemma FirstLine(ws: seq<string>, measure: string -> real, width: real)
    requires ws != [] && forall i :: 0 <= i < |ws| ==> IsWord(ws[i])
    ensures var ls := WrapLines(ws, "", measure, width);
      ls != [] && (ls[0] == "" <==> measure(ws[0]) > width)
      && forall i :: 0 < i < |ls| ==> ls[i] != ""
  {
    StripJoin("", ws[0]);
    WrapStep(ws, "", measure, width);
    TailWords(ws);
    NoEmptyLineAfterStart(ws[1..], ws[0], measure, width);
    var rest := WrapLines(ws[1..], ws[0], measure, width);
    if measure(ws[0]) > width {
      assert forall i :: 0 < i < |[""] + rest| ==> ([""] + rest)[i] == rest[i - 1];
    }
  }

  /** The shape of the drawn lines: every line fits the width or is a single
      word of the text; the only empty line there can be is the first, and
      it is there exactly when the first word alone is wider than the limit;
      with a cap of `m >= 0` lines there are at most `m`. */
  lemma WrapShape(text: string, measure: string -> real, width: real, maxLines: Option<int>)
    ensures var ws, ls := Words(text), WrappedLines(text, measure, width, maxLines);
      (forall i :: 0 <= i < |ls| ==> ls[i] == "" || measure(ls[i]) <= width || ls[i] in ws)
      && (forall i :: 0 < i < |ls| ==> ls[i] != "")
      && (ls != [] ==> (ls[0] == "" <==> measure(ws[0]) > width))
      && (maxLines.Some? && maxLines.value >= 0 ==> |ls| <= maxLines.value)
  {
    var ws := Words(text);
    var all := WrapLines(ws, "", measure, width);
    var ls := WrappedLines(text, measure, width, maxLines);
    assert ls == all[..|ls|];
    LinesAcceptable(ws, ws, "", measure, width);
    assert forall i :: 0 <= i < |ls| ==> ls[i] == all[i];
    if ws == [] {
      assert all == [];
    } else {
      FirstLine(ws, measure, width);
    }
  }
}
