/** The parsed XML document as the renderer sees it through lxml: elements
    with a namespace-qualified tag, attributes, optional text and ordered
    children, the `find`/`findall` lookups it performs with the NF-e
    namespace, and the tolerant readers `get_text` and `get_dec`. */
module Xml {

  import opened Base
  import opened Text
  import opened Decimals

  /** An element; `text` is `None` when lxml reports no text. */
  datatype Element = Element(tag: string, attrs: map<string, string>, text: Option<string>, children: seq<Element>)

  /** The NF-e namespace that the `nfe:` prefix stands for. */
  const Ns: string := "http://www.portalfiscal.inf.br/nfe"

  /** The Clark-notation tag `{namespace}local` that `nfe:local` denotes. */
  function Q(local: string): string
  {
    "{" + Ns + "}" + local
  }

  /** The elements of `es` with tag `tag`, in order. */
  function WithTag(es: seq<Element>, tag: string): (r: seq<Element>)
    ensures |r| <= |es|
    ensures forall i :: 0 <= i < |r| ==> r[i].tag == tag
  {
    if es == [] then []
    else (if es[0].tag == tag then [es[0]] else []) + WithTag(es[1..], tag)
  }

  lemma {:induction false} WithTagAppend(a: seq<Element>, b: seq<Element>, tag: string)
    ensures WithTag(a + b, tag) == WithTag(a, tag) + WithTag(b, tag)
  {
    if a == [] {
      assert a + b == b;
    } else {
      assert (a + b)[1..] == a[1..] + b;
      WithTagAppend(a[1..], b, tag);
    }
  }

  /** `e.findall(tag)`: the children of `e` with that tag, in document order. */
  function FindAll(e: Element, tag: string): seq<Element>
  {
    WithTag(e.children, tag)
  }

  /** The first element of a sequence, if any: what `find` takes of the
      matches of `findall`. */
  function First(es: seq<Element>): (r: Option<Element>)
    ensures r.None? <==> es == []
    ensures r.Some? ==> r.value == es[0]
  {
    if es == [] then None else Some(es[0])
  }

  /** Position of the first element of `es` with tag `tag`; `|es|` when
      there is none. */
  function IndexOfTag(es: seq<Element>, tag: string): (k: nat)
    ensures k <= |es|
    ensures k < |es| ==> es[k].tag == tag
    ensures forall j :: 0 <= j < k ==> es[j].tag != tag
  {
    if es == [] then 0
    else if es[0].tag == tag then 0
    else 1 + IndexOfTag(es[1..], tag)
  }

  /** The first element of `es` with tag `tag`. */
  function FirstWithTag(es: seq<Element>, tag: string): (r: Option<Element>)
    ensures r.None? <==> forall i :: 0 <= i < |es| ==> es[i].tag != tag
    ensures r.Some? ==> r.value.tag == tag && r.value == es[IndexOfTag(es, tag)]
  {
    var k := IndexOfTag(es, tag);
    if k < |es| then Some(es[k]) else None
  }

  /** `e.find(tag)`: the first child of `e` with that tag, or `None` when no
      child has it. */
  function Find(e: Element, tag: string): (r: Option<Element>)
    ensures r.None? <==> forall i :: 0 <= i < |e.children| ==> e.children[i].tag != tag
    ensures r.Some? ==> r.value.tag == tag && r.value == e.children[IndexOfTag(e.children, tag)]
  {
    FirstWithTag(e.children, tag)
  }

  /** `find` is the first result of `findall`. */
  lemma {:induction false} FirstWithTagIsFirstOfWithTag(es: seq<Element>, tag: string)
    ensures FirstWithTag(es, tag) == First(WithTag(es, tag))
  {
    if es != [] && es[0].tag != tag {
      FirstWithTagIsFirstOfWithTag(es[1..], tag);
    }
  }

  lemma FindIsFirstOfFindAll(e: Element, tag: string)
    ensures Find(e, tag) == First(FindAll(e, tag))
  {
    FirstWithTagIsFirstOfWithTag(e.children, tag);
  }

  /** `findall` finds nothing exactly when no child has the tag. */
  lemma {:induction false} WithTagEmpty(es: seq<Element>, tag: string)
    ensures WithTag(es, tag) == [] <==> forall i :: 0 <= i < |es| ==> es[i].tag != tag
  {
    if es != [] {
      WithTagEmpty(es[1..], tag);
      assert forall i :: 1 <= i < |es| ==> es[i] == es[1..][i - 1];
    }
  }

  /** One child step of a path: the children with tag `tag` of every element
      of `es`, element by element and in document order within each. */
  function ChildStep(es: seq<Element>, tag: string): seq<Element>
  {
    if es == [] then [] else WithTag(es[0].children, tag) + ChildStep(es[1..], tag)
  }

  /** The matches of the path `t1/t2/...` from the elements `es`. */
  function SelectPath(es: seq<Element>, path: seq<string>): seq<Element>
    decreases |path|
  {
    if path == [] then es else SelectPath(ChildStep(es, path[0]), path[1..])
  }

  /** `e.find("t1/t2/...")`: the first match of the path below `e`. */
  function FindPath(e: Element, path: seq<string>): Option<Element>
  {
    First(SelectPath([e], path))
  }

  lemma ChildStepSingle(e: Element, tag: string)
    ensures ChildStep([e], tag) == FindAll(e, tag)
  {
    assert [e][1..] == [];
    assert WithTag(e.children, tag) + [] == WithTag(e.children, tag);
  }

  /** A one-step path is an ordinary `find`. */
  lemma FindPathSingle(e: Element, tag: string)
    ensures FindPath(e, [tag]) == Find(e, tag)
  {
    ChildStepSingle(e, tag);
    FindIsFirstOfFindAll(e, tag);
    assert [tag][1..] == [];
    assert SelectPath([e], [tag]) == SelectPath(ChildStep([e], tag), []);
  }

  /** Every element below `e`, in document (pre)order, `e` itself excluded:
      what the `.//` prefix of a path ranges over. */
  function Descendants(e: Element): seq<Element>
    decreases e, 1
  {
    DescendantsOf(e.children)
  }

  function DescendantsOf(es: seq<Element>): seq<Element>
    decreases es, 0
  {
    if es == [] then [] else [es[0]] + Descendants(es[0]) + DescendantsOf(es[1..])
  }

  /** Number of elements in the tree rooted at `e`. */
  function Size(e: Element): (n: nat)
    ensures n >= 1
    decreases e, 1
  {
    1 + SizeOf(e.children)
  }

  function SizeOf(es: seq<Element>): nat
    decreases es, 0
  {
    if es == [] then 0 else Size(es[0]) + SizeOf(es[1..])
  }

  /** The descendants of a tree are all the elements of the tree but its
      root. */
  lemma {:induction false} DescendantsCount(e: Element)
    ensures |Descendants(e)| == Size(e) - 1
    decreases e, 1
  {
    DescendantsOfCount(e.children);
  }

  lemma {:induction false} DescendantsOfCount(es: seq<Element>)
    ensures |DescendantsOf(es)| == SizeOf(es)
    decreases es, 0
  {
    if es != [] {
      DescendantsCount(es[0]);
      DescendantsOfCount(es[1..]);
    }
  }

  /** Every element of a child list is among the descendants of that
      list. */
  lemma {:induction false} ChildrenAreDescendants(es: seq<Element>, i: nat)
    requires i < |es|
    ensures es[i] in DescendantsOf(es)
    decreases es
  {
    if i > 0 {
      ChildrenAreDescendants(es[1..], i - 1);
    }
  }

  /** `e.find(".//t1/t2/...")`: the first match of `t2/...` from the
      descendants of `e` tagged `t1`. */
  function FindBelow(e: Element, first: string, rest: seq<string>): Option<Element>
  {
    First(SelectPath(WithTag(Descendants(e), first), rest))
  }

  /** `get_text(node, path)`: empty when there is no node, when the path
      matches nothing or when the match has no text; otherwise the match's
      text stripped. */
  function GetText(node: Option<Element>, path: seq<string>): (r: string)
    ensures Trimmed(r)
    ensures node.None? ==> r == ""
    ensures node.Some? && FindPath(node.value, path).None? ==> r == ""
    ensures node.Some? && FindPath(node.value, path).Some? ==>
      var el := FindPath(node.value, path).value;
      r == (if el.text.Some? then Strip(el.text.value) else "")
  {
    match node
    case None => ""
    case Some(n) =>
      match FindPath(n, path)
      case None => ""
      case Some(el) => if el.text.Some? then Strip(el.text.value) else ""
  }

  /** `get_text` of a single `nfe:` child. */
  function ChildText(node: Option<Element>, local: string): (r: string)
    ensures Trimmed(r)
  {
    GetText(node, [Q(local)])
  }

  /** `get_dec(node, path)`: 0.00 when the text is empty, otherwise `dec` of
      the text, which fails when the text is not a number. */
  function GetDec(node: Option<Element>, path: seq<string>): (r: Result<Decimal, DecimalError>)
    ensures GetText(node, path) == "" ==> r == Ok(Zero)
    ensures GetText(node, path) != "" ==> r == Dec(TextArg(GetText(node, path)))
  {
    var t := GetText(node, path);
    if t == [] then Ok(Zero) else Dec(TextArg(t))
  }

  /** An absent node or an absent field reads as 0.00. */
  lemma GetDecMissing(node: Option<Element>, path: seq<string>)
    requires node.None? || FindPath(node.value, path).None?
    ensures GetDec(node, path) == Ok(Zero)
  {
  }

  /** A field holding a plain number reads as that number rounded half up to
      cents. */
  lemma GetDecNumber(node: Element, path: seq<string>, x: Decimal)
    requires FindPath(node, path).Some? && FindPath(node, path).value.text.Some?
    requires Parse(FindPath(node, path).value.text.value) == Some(x)
    requires Rescale(x, 2, HalfUp).coef < Pow10(Precision)
    ensures GetDec(Some(node), path) == Ok(Rescale(x, 2, HalfUp))
  {
    var t := FindPath(node, path).value.text.value;
    assert GetText(Some(node), path) == Strip(t);
    StrippedNumber(t, x);
  }

  lemma StrippedNumber(t: string, x: Decimal)
    requires Parse(t) == Some(x)
    ensures Strip(t) != "" && Parse(Strip(t)) == Some(x)
  {
    ParseStrip(t);
    ParseEmpty();
  }

  lemma ParseEmpty()
    ensures Parse("").None?
  {
    assert Strip("") == "";
  }

  /** `Decimal` ignores surrounding whitespace, so parsing the stripped text
      gives the same number. */
  lemma ParseStrip(s: string)
    ensures Parse(Strip(s)) == Parse(s)
  {
    StripTrimmed(Strip(s));
  }

  /** The `NFe` element: the `nfe:NFe` child of the root or, failing that,
      the root itself when its tag ends with `NFe`. */
  function LocateNFe(root: Element): (r: Option<Element>)
    ensures Find(root, Q("NFe")).Some? ==> r == Find(root, Q("NFe"))
    ensures Find(root, Q("NFe")).None? ==> (r.Some? <==> EndsWith(root.tag, "NFe"))
    ensures Find(root, Q("NFe")).None? && r.Some? ==> r.value == root
  {
    match Find(root, Q("NFe"))
    case Some(n) => Some(n)
    case None => if EndsWith(root.tag, "NFe") then Some(root) else None
  }

  /** An optional child lookup: `x.find(tag) if x is not None else None`. */
  function FindOpt(node: Option<Element>, tag: string): (r: Option<Element>)
    ensures node.None? ==> r.None?
    ensures node.Some? ==> r == Find(node.value, tag)
  {
    if node.None? then None else Find(node.value, tag)
  }

  /** The `infNFe` element of the document, if there is one. */
  function InfNFe(root: Element): Option<Element>
  {
    FindOpt(LocateNFe(root), Q("infNFe"))
  }

  /** The `det` (item) elements of the document, in order; none without an
      `infNFe`. */
  function Dets(root: Element): (r: seq<Element>)
    ensures InfNFe(root).None? ==> r == []
    ensures forall i :: 0 <= i < |r| ==> r[i].tag == Q("det")
  {
    match InfNFe(root)
    case None => []
    case Some(inf) => FindAll(inf, Q("det"))
  }
}
