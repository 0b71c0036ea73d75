/** The parsed XML element tree the marshaller works on. Parsing and
    serialising XML text are outside the model: a study's main document is
    given as an `Element`. */
module Xml {
  import opened Wrappers
  import Assoc
  import Text

  /** An element's attribute dictionary, in insertion order. */
  type Attrs = seq<(string, string)>

  datatype Element = Element(tag: string, attrs: Attrs, text: Option<string>, children: seq<Element>)

  /** `e.attrib.get(k)`. */
  function Attr(e: Element, k: string): Option<string>
  {
    Assoc.Get(e.attrs, k)
  }

  /** The "missing" marker: `e.attrib.get("Missing") == "true"`. */
  predicate IsMissing(e: Element)
  {
    Attr(e, "Missing") == Some("true")
  }

  /** `len(e) == 0`. */
  predicate IsLeaf(e: Element)
  {
    |e.children| == 0
  }

  /** A fresh `ET.SubElement(parent, tag)` given only its text. */
  function Leaf(tag: string, text: Option<string>): Element
  {
    Element(tag, [], text, [])
  }

  /** `int(e.attrib[k])`: KeyError when the attribute is absent, ValueError
      when its text is not an integer. */
  function IntAttr(e: Element, k: string): (r: Result<int>)
    ensures r.Ok? <==> Attr(e, k).Some? && Text.ParseInt(Attr(e, k).value).Some?
    ensures r.Ok? ==> r.value == Text.ParseInt(Attr(e, k).value).value
  {
    match Attr(e, k)
    case None => Err(KeyError(k))
    case Some(s) =>
      match Text.ParseInt(s)
      case None => Err(ValueError("invalid literal for int(): " + s))
      case Some(n) => Ok(n)
  }

  /** `int(x)` of an element text, where the text may be Python None. */
  function IntText(t: Option<string>): Result<int>
  {
    match t
    case None => Err(TypeError("int() argument must be a string, not 'NoneType'"))
    case Some(s) =>
      match Text.ParseInt(s)
      case None => Err(ValueError("invalid literal for int(): " + s))
      case Some(n) => Ok(n)
  }

  /** A `Len`-prefixed parent: the `Len` attribute followed by the children. */
  function Counted(tag: string, children: seq<Element>): Element
  {
    Element(tag, [("Len", Text.IntStr(|children|))], None, children)
  }

  /** The number of elements in a tree, used as a termination measure. */
  function Size(e: Element): nat
  {
    1 + SizeAll(e.children)
  }

  function SizeAll(cs: seq<Element>): nat
  {
    if |cs| == 0 then 0 else Size(cs[0]) + SizeAll(cs[1..])
  }

  lemma {:induction false} SizeAllMember(cs: seq<Element>, i: nat)
    requires i < |cs|
    ensures Size(cs[i]) <= SizeAll(cs)
  {
    if i > 0 {
      SizeAllMember(cs[1..], i - 1);
    }
  }
}
