/** The `Geometry` class, which has its own reader and writer: a point
    table indexed by `ID - 1`, a zero-based line table, the regions keyed
    `Regions-<ID>`, the mesh id, the name and the unknown children. */
module Geometries {
  import opened Wrappers
  import opened Xml
  import opened Values
  import Assoc
  import Text

  /** A region: its point IDs (as the file numbers them) and the children
      kept besides them. */
  datatype Region = Region(pointIds: seq<int>, extras: seq<Element>)

  /** A geometry. `points` and `lines` are None until a Points or Lines
      child is read; `meshId` and `name` hold the element texts. */
  datatype Geometry = Geometry(
    points: Option<seq<(real, real)>>,
    lines: Option<seq<(int, int)>>,
    regions: seq<(string, Region)>,
    meshId: Option<string>,
    name: Option<string>,
    other: seq<Element>)

  /** The state of a fresh `Geometry()`. */
  const Empty := Geometry(None, None, [], None, None, [])

  /** The tags the reader handles itself. */
  predicate Handled(tag: string)
  {
    tag == "Points" || tag == "Lines" || tag == "Regions" || tag == "MeshId" || tag == "ResultGraphs" || tag == "Name"
  }

  // ---------------------------------------------------------------------
  // Reading

  /** A NumPy row index: negative values count from the end; anything out
      of range raises IndexError. */
  function RowIndex(i: int, n: nat): (r: Result<nat>)
    ensures r.Ok? <==> -(n as int) <= i < n
    ensures r.Ok? ==> r.value < n && (i >= 0 ==> r.value == i)
  {
    if 0 <= i < n then Ok(i)
    else if -(n as int) <= i < 0 then Ok(i + n)
    else Err(IndexError("index out of bounds"))
  }

  /** `float(e.attrib[k])`. */
  function FloatAttr(e: Element, k: string, codec: FloatCodec): Result<real>
  {
    match Attr(e, k)
    case None => Err(KeyError(k))
    case Some(s) =>
      match codec.parse(s)
      case None => Err(ValueError("could not convert string to float: " + s))
      case Some(x) => Ok(x)
  }

  function Zeros<T>(n: nat, z: T): (r: seq<T>)
    ensures |r| == n && forall i :: 0 <= i < n ==> r[i] == z
  {
    seq(n, i => z)
  }

  /** The loop over the Point children: `points[int(ID) - 1] = [X, Y]`,
      the right-hand side evaluated first. */
  function FillPoints(cs: seq<Element>, acc: seq<(real, real)>, codec: FloatCodec): (r: Result<seq<(real, real)>>)
    ensures r.Ok? ==> |r.value| == |acc|
  {
    if |cs| == 0 then Ok(acc)
    else
      var x :- FloatAttr(cs[0], "X", codec);
      var y :- FloatAttr(cs[0], "Y", codec);
      var id :- IntAttr(cs[0], "ID");
      var i :- RowIndex(id - 1, |acc|);
      FillPoints(cs[1..], acc[i := (x, y)], codec)
  }

  /** A Points child: a zero table of `Len` rows, then the points. */
  function ReadPoints(e: Element, codec: FloatCodec): (r: Result<seq<(real, real)>>)
    ensures r.Ok? ==> IntAttr(e, "Len").Ok? && |r.value| == IntAttr(e, "Len").value
  {
    var n :- IntAttr(e, "Len");
    if n < 0 then Err(ValueError("negative dimensions are not allowed"))
    else FillPoints(e.children, Zeros(n, (0.0, 0.0)), codec)
  }

  /** `line[k]`: the k-th child, whatever its tag. */
  function Nth(e: Element, k: nat): Result<Element>
  {
    if k < |e.children| then Ok(e.children[k]) else Err(IndexError("child index out of range"))
  }

  /** The loop over the Line children: `lines[int(line[0].text) - 1] =
      [int(line[1].text) - 1, int(line[2].text) - 1]`. */
  function FillLines(cs: seq<Element>, acc: seq<(int, int)>): (r: Result<seq<(int, int)>>)
    ensures r.Ok? ==> |r.value| == |acc|
  {
    if |cs| == 0 then Ok(acc)
    else
      var c1 :- Nth(cs[0], 1);
      var a :- IntText(c1.text);
      var c2 :- Nth(cs[0], 2);
      var b :- IntText(c2.text);
      var c0 :- Nth(cs[0], 0);
      var id :- IntText(c0.text);
      var i :- RowIndex(id - 1, |acc|);
      FillLines(cs[1..], acc[i := (a - 1, b - 1)])
  }

  /** A Lines child: a table of `Len` rows of -1, then the lines, shifted to
      zero-based point indices. */
  function ReadLines(e: Element): (r: Result<seq<(int, int)>>)
    ensures r.Ok? ==> IntAttr(e, "Len").Ok? && |r.value| == IntAttr(e, "Len").value
  {
    var n :- IntAttr(e, "Len");
    if n < 0 then Err(ValueError("negative dimensions are not allowed"))
    else FillLines(e.children, Zeros(n, (-1, -1)))
  }

  /** `[int(y) for y in text.split(',')]`. */
  function ParseIds(pieces: seq<string>): (r: Result<seq<int>>)
    ensures r.Ok? <==> forall i :: 0 <= i < |pieces| ==> Text.ParseInt(pieces[i]).Some?
    ensures r.Ok? ==> |r.value| == |pieces| && forall i :: 0 <= i < |pieces| ==> Text.ParseInt(pieces[i]) == Some(r.value[i])
  {
    if |pieces| == 0 then Ok([])
    else
      match Text.ParseInt(pieces[0])
      case None => Err(ValueError("invalid literal for int(): " + pieces[0]))
      case Some(n) =>
        match ParseIds(pieces[1..])
        case Err(err) => Err(err)
        case Ok(rest) =>
          assert forall i :: 0 < i < |pieces| ==> pieces[i] == pieces[1..][i - 1];
          Ok([n] + rest)
  }

  function PointIds(t: Option<string>): Result<seq<int>>
  {
    match t
    case None => Err(AttributeError("'NoneType' object has no attribute 'split'"))
    case Some(s) => ParseIds(Text.Split(s, ','))
  }

  /** The local variables `id_`, `pts` and `other_attrib` of `read`. They
      are function locals, so they keep their values from one region to the
      next; None stands for "not bound yet". */
  datatype Locals = Locals(id: Option<Option<string>>, pts: Option<seq<int>>, extras: Option<seq<Element>>)

  /** The inner loop over a region's children: `other_attrib` is reset on
      every child, so only the last child can remain in it. */
  function RegionLocals(cs: seq<Element>, l: Locals): (r: Result<Locals>)
    ensures r.Ok? && |cs| > 0 ==>
              r.value.extras == Some(if cs[|cs| - 1].tag == "PointIDs" then [] else [cs[|cs| - 1]])
    ensures r.Ok? && |cs| == 0 ==> r.value == l
  {
    if |cs| == 0 then Ok(l)
    else
      var x := cs[0];
      var id := if x.tag == "ID" then Some(x.text) else l.id;
      var step: Result<Locals> :=
        if x.tag == "PointIDs" then
          (match PointIds(x.text)
           case Err(err) => Err(err)
           case Ok(p) => Ok(Locals(id, Some(p), Some([]))))
        else Ok(Locals(id, l.pts, Some([x])));
      match step
      case Err(err) => Err(err)
      case Ok(l1) =>
        assert |cs| > 1 ==> cs[1..][|cs[1..]| - 1] == cs[|cs| - 1];
        RegionLocals(cs[1..], l1)
  }

  /** The key of a region: `f"Regions-{id_}"`. */
  function RegionKey(id: Option<string>): string
  {
    "Regions-" + (match id case None => "None" case Some(s) => s)
  }

  /** One region: run the inner loop, then store `[pts, other_attrib]` under
      the key (a free name raises). */
  function ReadRegion(e: Element, l: Locals, regions: seq<(string, Region)>): Result<(Locals, seq<(string, Region)>)>
  {
    var l1 :- RegionLocals(e.children, l);
    if l1.pts.None? || l1.extras.None? || l1.id.None? then
      Err(NameError("local variable referenced before assignment"))
    else
      Ok((l1, Assoc.Put(regions, RegionKey(l1.id.value), Region(l1.pts.value, l1.extras.value))))
  }

  function ReadRegions(cs: seq<Element>, l: Locals, regions: seq<(string, Region)>): Result<(Locals, seq<(string, Region)>)>
  {
    if |cs| == 0 then Ok((l, regions))
    else
      var p :- ReadRegion(cs[0], l, regions);
      ReadRegions(cs[1..], p.0, p.1)
  }

  /** What `read` does with one child of the geometry element. */
  function ReadChild(e: Element, g: Geometry, l: Locals, codec: FloatCodec): (r: Result<(Geometry, Locals)>)
    ensures !Handled(e.tag) ==> r == Ok((g.(other := g.other + [e]), l))
    ensures e.tag == "ResultGraphs" ==> r == Ok((g, l))
  {
    if e.tag == "Points" then
      (match ReadPoints(e, codec)
       case Err(err) => Err(err)
       case Ok(ps) => Ok((g.(points := Some(ps)), l)))
    else if e.tag == "Lines" then
      (match ReadLines(e)
       case Err(err) => Err(err)
       case Ok(ls) => Ok((g.(lines := Some(ls)), l)))
    else if e.tag == "Regions" then
      (match ReadRegions(e.children, l, g.regions)
       case Err(err) => Err(err)
       case Ok(p) => Ok((g.(regions := p.1), p.0)))
    else if e.tag == "MeshId" then Ok((g.(meshId := e.text), l))
    else if e.tag == "ResultGraphs" then Ok((g, l))
    else if e.tag == "Name" then Ok((g.(name := e.text), l))
    else Ok((g.(other := g.other + [e]), l))
  }

  /** The loop of `read` over the geometry's children. */
  function ReadChildren(cs: seq<Element>, g: Geometry, l: Locals, codec: FloatCodec): (r: Result<(Geometry, Locals)>)
  {
    if |cs| == 0 then Ok((g, l))
    else
      match ReadChild(cs[0], g, l, codec)
      case Err(err) => Err(err)
      case Ok(s) => ReadChildren(cs[1..], s.0, s.1, codec)
  }

  /** `Geometry().read(element)`. */
  function Read(e: Element, codec: FloatCodec): Result<Geometry>
  {
    var p :- ReadChildren(e.children, Empty, Locals(None, None, None), codec);
    Ok(p.0)
  }

  // ---------------------------------------------------------------------
  // Writing

  function PointElement(i: nat, p: (real, real), codec: FloatCodec): Element
  {
    Element("Point", [("ID", Text.IntStr(i + 1)), ("X", codec.show(p.0)), ("Y", codec.show(p.1))], None, [])
  }

  function PointElements(ps: seq<(real, real)>, codec: FloatCodec): (r: seq<Element>)
    ensures |r| == |ps| && forall i :: 0 <= i < |ps| ==> r[i] == PointElement(i, ps[i], codec)
  {
    seq(|ps|, i requires 0 <= i < |ps| => PointElement(i, ps[i], codec))
  }

  function LineElement(i: nat, l: (int, int)): Element
  {
    Element("Line", [], None, [
      Leaf("ID", Some(Text.IntStr(i + 1))),
      Leaf("PointID1", Some(Text.IntStr(l.0 + 1))),
      Leaf("PointID2", Some(Text.IntStr(l.1 + 1)))])
  }

  function LineElements(ls: seq<(int, int)>): (r: seq<Element>)
    ensures |r| == |ls| && forall i :: 0 <= i < |ls| ==> r[i] == LineElement(i, ls[i])
  {
    seq(|ls|, i requires 0 <= i < |ls| => LineElement(i, ls[i]))
  }

  function IdStrings(ids: seq<int>): (r: seq<string>)
    ensures |r| == |ids| && forall i :: 0 <= i < |ids| ==> r[i] == Text.IntStr(ids[i])
  {
    seq(|ids|, i requires 0 <= i < |ids| => Text.IntStr(ids[i]))
  }

  /** A kept child is copied by tag, text and attributes only. */
  function Shallow(x: Element): Element
  {
    Element(x.tag, x.attrs, x.text, [])
  }

  function Shallows(xs: seq<Element>): (r: seq<Element>)
    ensures |r| == |xs| && forall i :: 0 <= i < |xs| ==> r[i] == Shallow(xs[i])
  {
    seq(|xs|, i requires 0 <= i < |xs| => Shallow(xs[i]))
  }

  /** A Region: its ID is the text after the last `-` of the key, its
      points are joined with commas, then the kept children. */
  function RegionElement(key: string, r: Region): Element
  {
    Element("Region", [], None, [
      Leaf("ID", Some(Text.LastPiece(key, '-'))),
      Leaf("PointIDs", Some(Text.Join(IdStrings(r.pointIds), ",")))] + Shallows(r.extras))
  }

  function RegionElements(rs: seq<(string, Region)>): (r: seq<Element>)
    ensures |r| == |rs| && forall i :: 0 <= i < |rs| ==> r[i] == RegionElement(rs[i].0, rs[i].1)
  {
    seq(|rs|, i requires 0 <= i < |rs| => RegionElement(rs[i].0, rs[i].1))
  }

  /** `__write__`: the children of the geometry element, always Points,
      Lines, Regions, MeshId and Name in that order, each `Len` set to the
      current count, and then the unknown children. */
  function Write(g: Geometry, codec: FloatCodec): (r: Result<seq<Element>>)
    ensures r.Ok? <==> g.points.Some? && g.lines.Some?
    ensures r.Ok? ==> (
      |r.value| == 5 + |g.other| && r.value[5..] == g.other &&
      r.value[0].tag == "Points" && r.value[1].tag == "Lines" && r.value[2].tag == "Regions" &&
      r.value[3] == Leaf("MeshId", g.meshId) && r.value[4] == Leaf("Name", g.name) &&
      Attr(r.value[0], "Len") == Some(Text.IntStr(|g.points.value|)) &&
      Attr(r.value[1], "Len") == Some(Text.IntStr(|g.lines.value|)) &&
      Attr(r.value[2], "Len") == Some(Text.IntStr(|g.regions|)))
  {
    if g.points.None? || g.lines.None? then Err(TypeError("object of type 'NoneType' has no len()"))
    else
      Ok([Counted("Points", PointElements(g.points.value, codec)),
          Counted("Lines", LineElements(g.lines.value)),
          Counted("Regions", RegionElements(g.regions)),
          Leaf("MeshId", g.meshId),
          Leaf("Name", g.name)] + g.other)
  }

  // ---------------------------------------------------------------------
  // Access and editing

  /** A value returned by `geometry[parameter]`. */
  datatype GeoVal =
    | GNone
    | GPoints(points: seq<(real, real)>)
    | GLines(lines: seq<(int, int)>)
    | GRegions(regions: seq<(string, Region)>)
    | GInt(i: int)
    | GStr(s: string)

  /** `__getitem__`: MeshId is converted with `int`; an unknown name, like
      a field not read yet, gives None. */
  function GetItem(g: Geometry, parameter: string): (r: Result<GeoVal>)
    ensures parameter == "MeshId" ==>
      (g.meshId.None? ==> r == Ok(GNone)) &&
      (g.meshId.Some? ==> (r.Ok? <==> Text.ParseInt(g.meshId.value).Some?) &&
                          (r.Ok? ==> r == Ok(GInt(Text.ParseInt(g.meshId.value).value))))
    ensures !(parameter in {"Points", "Lines", "Regions", "MeshId", "Mesh", "Name"}) ==> r == Ok(GNone)
  {
    if parameter == "Points" then Ok(if g.points.None? then GNone else GPoints(g.points.value))
    else if parameter == "Lines" then Ok(if g.lines.None? then GNone else GLines(g.lines.value))
    else if parameter == "Regions" then Ok(GRegions(g.regions))
    else if parameter == "MeshId" then
      (if g.meshId.None? then Ok(GNone)
       else match Text.ParseInt(g.meshId.value)
            case None => Err(ValueError("invalid literal for int(): " + g.meshId.value))
            case Some(n) => Ok(GInt(n)))
    else if parameter == "Mesh" then Err(NotModelled("the mesh object"))
    else if parameter == "Name" then Ok(if g.name.None? then GNone else GStr(g.name.value))
    else Ok(GNone)
  }

  /** `addRegions(pt_ids)` as written: the new key numbers the region one
      past the current count. */
  function AddRegionsAsWritten(g: Geometry, ptIds: seq<int>): (r: Geometry)
    ensures r.regions == Assoc.Put(g.regions, RegionKey(Some(Text.IntStr(|g.regions| + 1))), Region(ptIds, []))
    ensures r == g.(regions := r.regions)
  {
    g.(regions := Assoc.Put(g.regions, RegionKey(Some(Text.IntStr(|g.regions| + 1))), Region(ptIds, [])))
  }

  /** The number in a region key `Regions-<n>`, if it is one. */
  function KeyNumber(key: string): Option<int>
  {
    if |key| >= 8 && key[..8] == "Regions-" then Text.ParseInt(key[8..]) else None
  }

  /** The largest region number among the keys, or 0. */
  function MaxNumber(rs: seq<(string, Region)>): (m: int)
    ensures m >= 0
    ensures forall i :: 0 <= i < |rs| && KeyNumber(rs[i].0).Some? ==> KeyNumber(rs[i].0).value <= m
  {
    if |rs| == 0 then 0
    else
      var rest := MaxNumber(rs[1..]);
      assert forall i :: 0 < i < |rs| ==> rs[i] == rs[1..][i - 1];
      var here := KeyNumber(rs[0].0);
      if here.Some? && here.value > rest then here.value else rest
  }

  /** `addRegions(pt_ids)` numbering the new region one past the largest
      number in use, so that it never replaces an existing region. */
  function AddRegions(g: Geometry, ptIds: seq<int>): (r: Geometry)
    ensures r.regions == g.regions + [(RegionKey(Some(Text.IntStr(MaxNumber(g.regions) + 1))), Region(ptIds, []))]
    ensures r == g.(regions := r.regions)
  {
    var n := MaxNumber(g.regions) + 1;
    var key := RegionKey(Some(Text.IntStr(n)));
    KeyNumberOf(n);
    assert !Assoc.HasKey(g.regions, key) by {
      forall i | 0 <= i < |g.regions| ensures g.regions[i].0 != key {
        assert KeyNumber(g.regions[i].0) != KeyNumber(key);
      }
    }
    g.(regions := Assoc.Put(g.regions, key, Region(ptIds, [])))
  }

  lemma KeyNumberOf(n: int)
    ensures KeyNumber(RegionKey(Some(Text.IntStr(n)))) == Some(n)
  {
    var key := RegionKey(Some(Text.IntStr(n)));
    assert key[..8] == "Regions-" && key[8..] == Text.IntStr(n);
    Text.IntStrRoundTrip(n);
  }
}
