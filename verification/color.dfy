/** A material or reinforcement colour, stored in the document as the
    element text `RGB=(r,g,b)`. */
module Colors {
  import opened Wrappers
  import opened Text
  import opened Xml
  import opened Values

  /** `[int(x) for x in parts]`: the first part that is not an integer
      raises ValueError. */
  function ParseInts(parts: seq<string>): (r: Result<seq<int>>)
    ensures r.Ok? <==> forall i :: 0 <= i < |parts| ==> ParseInt(parts[i]).Some?
    ensures r.Ok? ==> |r.value| == |parts|
    ensures r.Ok? ==> forall i :: 0 <= i < |parts| ==> ParseInt(parts[i]) == Some(r.value[i])
  {
    if |parts| == 0 then Ok([])
    else
      match ParseInt(parts[0])
      case None => Err(ValueError("invalid literal for int(): " + parts[0]))
      case Some(n) =>
        match ParseInts(parts[1..])
        case Err(e) => Err(e)
        case Ok(rest) => Ok([n] + rest)
  }

  /** The channels of a colour text: the part after the last `(`, minus its
      final character, split on `,`, each converted with `int`. */
  function ParseRgb(text: string): Result<seq<int>>
  {
    ParseInts(Split(DropLast(LastPiece(text, '(')), ','))
  }

  /** `Color(element)`: the element's text must exist (`None.split` raises
      AttributeError). The channel count is not checked. */
  function FromElement(e: Element): Result<Record>
  {
    match e.text
    case None => Err(AttributeError("split"))
    case Some(t) =>
      match ParseRgb(t)
      case Err(err) => Err(err)
      case Ok(rgb) => Ok(ColorRec(rgb))
  }

  /** The text `__write__` stores. */
  function RgbText(r: int, g: int, b: int): string
  {
    "RGB=(" + IntStr(r) + "," + IntStr(g) + "," + IntStr(b) + ")"
  }

  /** `Color.__write__`: the first three channels; fewer raise IndexError. */
  function WriteText(rgb: seq<int>): (r: Result<string>)
    ensures r.Ok? <==> |rgb| >= 3
  {
    if |rgb| < 3 then Err(IndexError("list index out of range"))
    else Ok(RgbText(rgb[0], rgb[1], rgb[2]))
  }

  /** Parsing the written text yields the same three channels. */
  lemma RgbRoundTrip(r: int, g: int, b: int)
    ensures ParseRgb(RgbText(r, g, b)) == Ok([r, g, b])
  {
    var parts := [IntStr(r), IntStr(g), IntStr(b)];
    var body := Join(parts, ",");
    assert Join(parts[2..], ",") == IntStr(b);
    assert Join(parts[1..], ",") == IntStr(g) + "," + IntStr(b);
    assert body == IntStr(r) + "," + IntStr(g) + "," + IntStr(b);
    assert RgbText(r, g, b) == "RGB=" + ['('] + (body + ")");
    LastPieceAfter("RGB=", '(', body + ")");
    IntStrChars(r, '('); IntStrChars(g, '('); IntStrChars(b, '(');
    assert '(' !in body + ")";
    SplitNone(body + ")", '(');
    assert LastPiece(RgbText(r, g, b), '(') == body + ")";
    assert DropLast(body + ")") == body;
    IntStrChars(r, ','); IntStrChars(g, ','); IntStrChars(b, ',');
    SplitJoin(parts, ',');
    assert Split(body, ',') == parts;
    IntStrRoundTrip(r); IntStrRoundTrip(g); IntStrRoundTrip(b);
    var res := ParseInts(parts);
    assert res.Ok?;
    assert res.value[0] == r && res.value[1] == g && res.value[2] == b;
    assert res.value == [r, g, b];
  }

  /** Reading back a written colour element gives its first three channels. */
  lemma ElementRoundTrip(tag: string, rgb: seq<int>)
    requires |rgb| >= 3
    ensures FromElement(Leaf(tag, Some(WriteText(rgb).value))) == Ok(ColorRec(rgb[..3]))
  {
    RgbRoundTrip(rgb[0], rgb[1], rgb[2]);
    assert [rgb[0], rgb[1], rgb[2]] == rgb[..3];
  }

  // ---------------------------------------------------------------------
  // The constructor's other argument shapes

  /** What `Color(arg)` can be given. */
  datatype ColorArg = ElementArg(e: Element) | NameArg(name: string) | ListArg(xs: seq<int>) | OtherArg

  predicate InRange(x: int)
  {
    0 <= x <= 255
  }

  /** The list branch as written: the check inside the loop calls the
      undefined name `instance`, so every list that reaches it (any list of
      length 3) raises NameError; an empty list skips the loop. */
  function FromListAsWritten(xs: seq<int>): (r: Result<Record>)
    ensures r.Ok? <==> |xs| == 0
    ensures r.Ok? ==> r.value == ColorRec([])
    ensures |xs| != 0 && |xs| != 3 ==> r.Err? && r.error.ValueError?
    ensures |xs| == 3 ==> r == Err(NameError("instance"))
  {
    if |xs| == 0 then Ok(ColorRec(xs))
    else if |xs| != 3 then Err(ValueError("List must have 3 elements for Red, Green and Blue intensity"))
    else Err(NameError("instance"))
  }

  /** The as-written list branch refuses every well-formed colour. */
  lemma FromListAsWrittenRejectsAll(xs: seq<int>)
    requires |xs| == 3 && InRange(xs[0]) && InRange(xs[1]) && InRange(xs[2])
    ensures FromListAsWritten(xs).Err?
    ensures FromListAsWritten(xs).error == NameError("instance")
  {
  }

  /** The list branch with `isinstance`, as evidently intended. */
  function FromList(xs: seq<int>): (r: Result<Record>)
    ensures |xs| > 0 ==> (r.Ok? <==> |xs| == 3 && forall i :: 0 <= i < |xs| ==> InRange(xs[i]))
    ensures r.Ok? ==> r.value == ColorRec(xs)
  {
    if |xs| == 0 then Ok(ColorRec(xs))
    else if |xs| != 3 then Err(ValueError("List must have 3 elements for Red, Green and Blue intensity"))
    else if !(InRange(xs[0]) && InRange(xs[1]) && InRange(xs[2])) then
      Err(ValueError("RGB color must me integer from 0 to 255 inclusive"))
    else Ok(ColorRec(xs))
  }

  /** `Color(arg)`. A colour name goes to `setColor`, which the class does
      not define (AttributeError); a list goes through the list branch as
      written; anything else raises ValueError. */
  function New(arg: ColorArg): (r: Result<Record>)
    ensures arg.OtherArg? ==> r.Err? && r.error.ValueError?
    ensures arg.NameArg? ==> r == Err(AttributeError("setColor"))
    ensures arg.ListArg? ==> r == FromListAsWritten(arg.xs)
    ensures arg.ElementArg? ==> r == FromElement(arg.e)
  {
    match arg
    case ElementArg(e) => FromElement(e)
    case NameArg(_) => Err(AttributeError("setColor"))
    case ListArg(xs) => FromListAsWritten(xs)
    case OtherArg => Err(ValueError("Can't set color from the argument"))
  }
}
