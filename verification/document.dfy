/** `GeoStudioFile`: the study's main document as a whole. Reading records
    the order of the top-level sections, reads the known ones into
    collections and keeps the others as they are; linking resolves the
    cross-references by ID; writing replays the recorded order. */
module Documents {
  import opened Wrappers
  import opened Xml
  import opened Schema
  import opened Values
  import Assoc
  import Text
  import Marshal
  import Access
  import Geometries
  import Seqs
  import opened FunctionTrees
  import FileInfos

  /** The top-level sections the reader understands. */
  datatype Section = FileInfo | GeometrySection | Analyses | Contexts | Materials | Reinforcements | Functions

  function SectionTag(s: Section): string
  {
    match s
    case FileInfo => "FileInfo"
    case GeometrySection => "Geometries"
    case Analyses => "Analyses"
    case Contexts => "Contexts"
    case Materials => "Materials"
    case Reinforcements => "Reinforcements"
    case Functions => "Functions"
  }

  /** The section a top-level tag names, if any. */
  function SectionOf(tag: string): (r: Option<Section>)
    ensures r.Some? ==> SectionTag(r.value) == tag
    ensures r.None? <==> forall s: Section :: SectionTag(s) != tag
  {
    if tag == "FileInfo" then Some(FileInfo)
    else if tag == "Geometries" then Some(GeometrySection)
    else if tag == "Analyses" then Some(Analyses)
    else if tag == "Contexts" then Some(Contexts)
    else if tag == "Materials" then Some(Materials)
    else if tag == "Reinforcements" then Some(Reinforcements)
    else if tag == "Functions" then Some(Functions)
    else None
  }

  /** One entry of `xml_items`: the name of a section that was read, or an
      unknown section stored for the writer. */
  datatype Item = Known(section: Section) | Passed(e: Element)

  /** The entry reading a top-level child records. */
  function ItemFor(e: Element): Item
  {
    match SectionOf(e.tag)
    case Some(s) => Known(s)
    case None => Passed(e)
  }

  /** The state of a `GeoStudioFile`. */
  datatype Doc = Doc(
    rootTag: string,
    rootAttrs: Attrs,
    fileInfo: Option<Attrs>,
    geometries: seq<Geometries.Geometry>,
    analyses: seq<Record>,
    contexts: seq<Record>,
    materials: seq<Record>,
    reinforcements: seq<Record>,
    functions: Tree,
    items: seq<Item>)

  /** The state before the sections are read. */
  function Fresh(root: Element): Doc
  {
    Doc(root.tag, root.attrs, None, [], [], [], [], [], Skeleton, [])
  }

  // ---------------------------------------------------------------------
  // Len-prefixed collections

  /** `for i in range(n): read(element[i])`: the first `n` children, read
      in order; a missing child raises IndexError. */
  function ReadFirst<T>(read: Element -> Result<T>, cs: seq<Element>, n: nat): (r: Result<seq<T>>)
    ensures r.Ok? ==> |r.value| == n && n <= |cs|
    ensures r.Ok? ==> forall i :: 0 <= i < n ==> read(cs[i]) == Ok(r.value[i])
    decreases n
  {
    if n == 0 then Ok([])
    else if |cs| == 0 then Err(IndexError("child index out of range"))
    else
      var x :- read(cs[0]);
      var rest :- ReadFirst(read, cs[1..], n - 1);
      assert forall i :: 1 <= i < n ==> cs[i] == cs[1..][i - 1];
      Ok([x] + rest)
  }

  /** The reader of a record kind. */
  function RecordReader(k: Kind, codec: FloatCodec): Element -> Result<Record>
  {
    e => Marshal.ReadRecord(k, e, codec)
  }

  /** The geometry reader. */
  function GeometryReader(codec: FloatCodec): Element -> Result<Geometries.Geometry>
  {
    e => Geometries.Read(e, codec)
  }

  /** `ReadFirst` with the record reader of `k`, spelled out so that the
      reader is not unfolded wherever a collection is read. */
  function ReadFirstRecords(k: Kind, cs: seq<Element>, n: nat, codec: FloatCodec): (r: Result<seq<Record>>)
    ensures r.Ok? ==> |r.value| == n && n <= |cs|
    ensures r.Ok? ==> forall i :: 0 <= i < n ==> Marshal.ReadRecord(k, cs[i], codec) == Ok(r.value[i])
    decreases n
  {
    if n == 0 then Ok([])
    else if |cs| == 0 then Err(IndexError("child index out of range"))
    else
      var x :- Marshal.ReadRecord(k, cs[0], codec);
      Seqs.TailAt(cs);
      var rest :- ReadFirstRecords(k, cs[1..], n - 1, codec);
      Seqs.ConsAt(x, rest);
      Ok([x] + rest)
  }

  /** `ReadFirst` with the geometry reader. */
  function ReadFirstGeometries(cs: seq<Element>, n: nat, codec: FloatCodec): (r: Result<seq<Geometries.Geometry>>)
    ensures r.Ok? ==> |r.value| == n && n <= |cs|
    ensures r.Ok? ==> forall i :: 0 <= i < n ==> Geometries.Read(cs[i], codec) == Ok(r.value[i])
    decreases n
  {
    if n == 0 then Ok([])
    else if |cs| == 0 then Err(IndexError("child index out of range"))
    else
      var x :- Geometries.Read(cs[0], codec);
      var rest :- ReadFirstGeometries(cs[1..], n - 1, codec);
      assert forall i :: 1 <= i < n ==> cs[i] == cs[1..][i - 1];
      Ok([x] + rest)
  }

  /** `int(element.attrib["Len"])`, where a negative count reads nothing. */
  function Count(e: Element): (r: Result<nat>)
    ensures r.Ok? <==> IntAttr(e, "Len").Ok?
    ensures r.Ok? ==> r.value == if IntAttr(e, "Len").value < 0 then 0 else IntAttr(e, "Len").value
  {
    var n :- IntAttr(e, "Len");
    Ok(if n < 0 then 0 else n)
  }

  /** `__readAnalysis__` and its siblings: the records of a section. */
  function ReadCollection(k: Kind, e: Element, codec: FloatCodec): (r: Result<seq<Record>>)
    ensures r.Ok? ==> Count(e).Ok? && |r.value| == Count(e).value
  {
    var n :- Count(e);
    ReadFirstRecords(k, e.children, n, codec)
  }

  /** `__readGeometry__`. */
  function ReadGeometries(e: Element, codec: FloatCodec): (r: Result<seq<Geometries.Geometry>>)
    ensures r.Ok? ==> Count(e).Ok? && |r.value| == Count(e).value
  {
    var n :- Count(e);
    ReadFirstGeometries(e.children, n, codec)
  }

  // ---------------------------------------------------------------------
  // Reading the sections

  /** What the loop of `initialize` does with one top-level child. A
      section that appears twice is read twice into the same collection
      and recorded twice. */
  function ReadSection(e: Element, d: Doc, codec: FloatCodec): (r: Result<Doc>)
    ensures r.Ok? ==> r.value.items == d.items + [ItemFor(e)]
    ensures r.Ok? ==> r.value.rootTag == d.rootTag && r.value.rootAttrs == d.rootAttrs
    ensures SectionOf(e.tag).None? ==> r == Ok(d.(items := d.items + [Passed(e)]))
  {
    var item := ItemFor(e);
    match SectionOf(e.tag)
    case None => Ok(d.(items := d.items + [item]))
    case Some(FileInfo) => Ok(d.(fileInfo := Some(e.attrs), items := d.items + [item]))
    case Some(GeometrySection) =>
      var gs :- ReadGeometries(e, codec);
      Ok(d.(geometries := d.geometries + gs, items := d.items + [item]))
    case Some(Analyses) =>
      var rs :- ReadCollection(Analysis, e, codec);
      Ok(d.(analyses := d.analyses + rs, items := d.items + [item]))
    case Some(Contexts) =>
      var rs :- ReadCollection(Context, e, codec);
      Ok(d.(contexts := d.contexts + rs, items := d.items + [item]))
    case Some(Materials) =>
      var rs :- ReadCollection(Material, e, codec);
      Ok(d.(materials := d.materials + rs, items := d.items + [item]))
    case Some(Reinforcements) =>
      var rs :- ReadCollection(Reinforcement, e, codec);
      Ok(d.(reinforcements := d.reinforcements + rs, items := d.items + [item]))
    case Some(Functions) =>
      var t :- ReadTree(d.functions, e.children, [], codec);
      Ok(d.(functions := t, items := d.items + [item]))
  }

  /** The loop over the root's children: `xml_items` ends up with one entry
      per child, in document order. */
  function ReadSections(cs: seq<Element>, d: Doc, codec: FloatCodec): (r: Result<Doc>)
    ensures r.Ok? ==> ItemsAfter(d.items, cs, r.value.items)
    ensures r.Ok? ==> r.value.rootTag == d.rootTag && r.value.rootAttrs == d.rootAttrs
  {
    if |cs| == 0 then Ok(d)
    else
      var d1 :- ReadSection(cs[0], d, codec);
      var r :- ReadSections(cs[1..], d1, codec);
      ItemsExtend(cs, d.items, d1.items, r.items);
      Ok(r)
  }

  /** `after` is `before` followed by one item per child of `cs`. */
  predicate ItemsAfter(before: seq<Item>, cs: seq<Element>, after: seq<Item>)
  {
    |after| == |before| + |cs| && after[..|before|] == before &&
    forall i :: 0 <= i < |cs| ==> after[|before| + i] == ItemFor(cs[i])
  }

  /** The items recorded for the first child, then for the others, are
      the items recorded for all of them. */
  lemma ItemsExtend(cs: seq<Element>, before: seq<Item>, mid: seq<Item>, after: seq<Item>)
    requires |cs| > 0 && mid == before + [ItemFor(cs[0])]
    requires ItemsAfter(mid, cs[1..], after)
    ensures ItemsAfter(before, cs, after)
  {
    assert after[..|before|] == mid[..|before|];
    forall i | 0 <= i < |cs| ensures after[|before| + i] == ItemFor(cs[i]) {
      if i == 0 {
        assert after[|before|] == mid[|before|];
      } else {
        assert cs[i] == cs[1..][i - 1];
      }
    }
  }

  // ---------------------------------------------------------------------
  // Lookups

  /** The first record whose field equals `want`, or None; reading the
      field of an earlier record can raise. Python equality of the values is
      taken as equality of the model values. */
  function FindFirst(rs: seq<Record>, field: string, want: PyVal, codec: FloatCodec): (r: Result<Option<nat>>)
    ensures r.Ok? <==> Searchable(rs, field, want, codec)
    ensures r.Ok? && r.value.Some? ==>
      r.value.value < |rs| && Access.GetItem(rs[r.value.value], field, codec) == Ok(want) &&
      MissesBefore(rs, field, want, codec, r.value.value)
    ensures r.Ok? && r.value.None? ==> MissesBefore(rs, field, want, codec, |rs|)
  {
    if |rs| == 0 then Ok(None)
    else
      var v := Access.GetItem(rs[0], field, codec);
      if v.Err? then Err(v.error)
      else if v.value == want then Ok(Some(0))
      else
        SearchStep(rs, field, want, codec);
        var rest := FindFirst(rs[1..], field, want, codec);
        if rest.Err? then Err(rest.error)
        else if rest.value.None? then MissesShift(rs, field, want, codec, |rs| - 1); Ok(None)
        else MissesShift(rs, field, want, codec, rest.value.value); Ok(Some(rest.value.value + 1))
  }

  /** No record before position `j` has `want` in its field. */
  predicate MissesBefore(rs: seq<Record>, field: string, want: PyVal, codec: FloatCodec, j: nat)
    requires j <= |rs|
  {
    forall i :: 0 <= i < j ==> Access.GetItem(rs[i], field, codec) != Ok(want)
  }

  /** Every record the search reaches, up to the first match, has a
      readable field. */
  predicate Searchable(rs: seq<Record>, field: string, want: PyVal, codec: FloatCodec)
  {
    forall j :: 0 <= j < |rs| && MissesBefore(rs, field, want, codec, j) ==> Access.GetItem(rs[j], field, codec).Ok?
  }

  /** Past a first record that does not match, missing up to `j + 1` in
      the list is missing up to `j` in its tail. */
  lemma MissesShift(rs: seq<Record>, field: string, want: PyVal, codec: FloatCodec, j: nat)
    requires j < |rs| && Access.GetItem(rs[0], field, codec) != Ok(want)
    ensures MissesBefore(rs, field, want, codec, j + 1) <==> MissesBefore(rs[1..], field, want, codec, j)
  {
    if MissesBefore(rs[1..], field, want, codec, j) {
      forall i | 0 < i < j + 1 ensures Access.GetItem(rs[i], field, codec) != Ok(want) {
        assert rs[i] == rs[1..][i - 1];
      }
    }
  }

  /** Past a readable first record that does not match, the search is
      defined on the list exactly when it is on the tail. */
  lemma SearchStep(rs: seq<Record>, field: string, want: PyVal, codec: FloatCodec)
    requires |rs| > 0 && Access.GetItem(rs[0], field, codec).Ok? && Access.GetItem(rs[0], field, codec) != Ok(want)
    ensures Searchable(rs, field, want, codec) <==> Searchable(rs[1..], field, want, codec)
  {
    var t := rs[1..];
    if Searchable(t, field, want, codec) {
      forall j | 0 <= j < |rs| && MissesBefore(rs, field, want, codec, j)
        ensures Access.GetItem(rs[j], field, codec).Ok?
      {
        if j > 0 {
          MissesShift(rs, field, want, codec, j - 1);
          assert rs[j] == t[j - 1];
        }
      }
    }
    if Searchable(rs, field, want, codec) {
      forall j | 0 <= j < |t| && MissesBefore(t, field, want, codec, j)
        ensures Access.GetItem(t[j], field, codec).Ok?
      {
        MissesShift(rs, field, want, codec, j);
        assert t[j] == rs[j + 1];
      }
    }
  }

  /** `getAnalysisByName`, `getAnalysisByID`, `getMaterialByName`,
      `getMaterialByID`, `getReinforcementByName`, `getReinforcementByID`:
      the first match in list order, or ValueError. */
  function FindBy(rs: seq<Record>, field: string, want: PyVal, codec: FloatCodec): (r: Result<nat>)
    ensures r.Ok? ==> r.value < |rs| && Access.GetItem(rs[r.value], field, codec) == Ok(want) &&
                      forall i :: 0 <= i < r.value ==> Access.GetItem(rs[i], field, codec) != Ok(want)
    ensures (forall i :: 0 <= i < |rs| ==> Access.GetItem(rs[i], field, codec).Ok? &&
                                           Access.GetItem(rs[i], field, codec) != Ok(want)) ==>
              r.Err? && r.error.ValueError?
  {
    var found :- FindFirst(rs, field, want, codec);
    match found
    case None => Err(ValueError(field + " not found in file."))
    case Some(i) => Ok(i)
  }

  /** `getGeometryByID` as written: only an ID above the count is rejected,
      and `geometries[ID - 1]` follows Python's negative indexing, so every
      ID from `1 - count` to `count` is accepted and an ID below 1 counts
      from the end. */
  function GeometryIndexAsWritten(count: nat, id: PyVal): (r: Result<nat>)
    ensures r.Ok? <==> id.VInt? && -(count as int) < id.i <= count
    ensures r.Ok? ==> r.value < count
    ensures r.Ok? && id.i >= 1 ==> r.value == id.i - 1
    ensures r.Ok? && id.i < 1 ==> r.value == id.i - 1 + count
    ensures id.VInt? && id.i > count ==> r.Err? && r.error.ValueError?
    ensures id.VInt? && id.i <= -(count as int) ==> r.Err? && r.error.IndexError?
    ensures !id.VInt? ==> r.Err? && r.error.TypeError?
  {
    if !id.VInt? then Err(TypeError("'>' not supported between instances"))
    else if id.i > count then Err(ValueError("No such geometry with ID " + Text.IntStr(id.i)))
    else Geometries.RowIndex(id.i - 1, count)
  }

  /** `getGeometryByID` with the range check it evidently intends: IDs
      number the geometries from 1. */
  function GeometryIndex(count: nat, id: PyVal): (r: Result<nat>)
    ensures r.Ok? <==> id.VInt? && 1 <= id.i <= count
    ensures r.Ok? ==> r.value + 1 == id.i
  {
    if !id.VInt? then Err(TypeError("'>' not supported between instances"))
    else if id.i > count || id.i < 1 then Err(ValueError("No such geometry with ID " + Text.IntStr(id.i)))
    else Ok(id.i - 1)
  }

  /** The collections `__getitem__` hands out. */
  datatype Collection = AnalysesItem | MaterialsItem | ReinforcementsItem | FunctionsItem

  function CollectionOf(item: string): (r: Option<Collection>)
  {
    if item == "Analyses" then Some(AnalysesItem)
    else if item == "Materials" then Some(MaterialsItem)
    else if item == "Reinforcements" then Some(ReinforcementsItem)
    else if item == "Functions" then Some(FunctionsItem)
    else None
  }

  /** `study[item]` as written: "Functions" goes through
      `__functionToList__`, whose default list is created once and shared by
      every call (and every study), so it is passed in and returned. */
  function GetItemAsWritten(d: Doc, item: string, shared: seq<Record>): (r: Result<(seq<Record>, seq<Record>)>)
    ensures CollectionOf(item).None? <==> r.Err?
    ensures r.Err? ==> r.error.ValueError?
    ensures item == "Analyses" ==> r == Ok((d.analyses, shared))
    ensures item == "Materials" ==> r == Ok((d.materials, shared))
    ensures item == "Reinforcements" ==> r == Ok((d.reinforcements, shared))
    ensures item == "Functions" ==> (r.Ok? && r.value.0 == r.value.1 &&
      |r.value.0| == |shared| + |FunctionList(d.functions)|)
  {
    match CollectionOf(item)
    case None => Err(ValueError("No accessible item of name " + item + " through PyGeoStudio interface"))
    case Some(AnalysesItem) => Ok((d.analyses, shared))
    case Some(MaterialsItem) => Ok((d.materials, shared))
    case Some(ReinforcementsItem) => Ok((d.reinforcements, shared))
    case Some(FunctionsItem) =>
      var l := FunctionToList(d.functions, shared);
      Ok((l, l))
  }

  /** `study[item]` with a fresh list for "Functions": the study's own
      Functions, and nothing left over from earlier calls. */
  function GetItem(d: Doc, item: string): (r: Result<seq<Record>>)
    ensures CollectionOf(item).None? <==> r.Err?
    ensures r.Err? ==> r.error.ValueError?
    ensures item == "Analyses" ==> r == Ok(d.analyses)
    ensures item == "Materials" ==> r == Ok(d.materials)
    ensures item == "Reinforcements" ==> r == Ok(d.reinforcements)
    ensures item == "Functions" ==> r == Ok(FunctionList(d.functions))
  {
    match CollectionOf(item)
    case None => Err(ValueError("No accessible item of name " + item + " through PyGeoStudio interface"))
    case Some(AnalysesItem) => Ok(d.analyses)
    case Some(MaterialsItem) => Ok(d.materials)
    case Some(ReinforcementsItem) => Ok(d.reinforcements)
    case Some(FunctionsItem) => Ok(FunctionList(d.functions))
  }

  /** `getFunctionByName(name)` as written: the first match in the shared
      list, which by then also holds the Functions of every earlier call. */
  function FunctionByNameAsWritten(d: Doc, name: string, shared: seq<Record>, codec: FloatCodec): (r: Result<(nat, seq<Record>)>)
    ensures r.Ok? ==> r.value.1 == FunctionToList(d.functions, shared) && r.value.0 < |r.value.1| &&
                      Access.GetItem(r.value.1[r.value.0], "Name", codec) == Ok(VStr(name))
  {
    var l := FunctionToList(d.functions, shared);
    var i :- FindBy(l, "Name", VStr(name), codec);
    Ok((i, l))
  }

  /** `getFunctionByName(name)` over the study's own Functions: the first
      one, in tree order, with that name. */
  function FunctionByName(d: Doc, name: string, codec: FloatCodec): (r: Result<nat>)
    ensures r.Ok? ==> r.value < |FunctionList(d.functions)| &&
                      Access.GetItem(FunctionList(d.functions)[r.value], "Name", codec) == Ok(VStr(name)) &&
                      forall i :: 0 <= i < r.value ==> Access.GetItem(FunctionList(d.functions)[i], "Name", codec) != Ok(VStr(name))
  {
    FindBy(FunctionList(d.functions), "Name", VStr(name), codec)
  }

  // ---------------------------------------------------------------------
  // Linking

  /** The list of Functions stored at a key path of the tree. */
  function FunsAt(t: Tree, path: seq<string>): (r: Result<seq<Record>>)
    decreases |path|
  {
    if |path| == 0 then Err(TypeError("a category is not a list"))
    else
      var n: Option<Node> := Assoc.Get(t, path[0]);
      if n.None? then Err(KeyError(path[0]))
      else if |path| == 1 then
        (if n.value.FunList? then Ok(n.value.funs) else Err(TypeError("not a list of functions")))
      else if n.value.Category? then FunsAt(n.value.entries, path[1..])
      else Err(TypeError("not a category"))
  }

  /** A record with one field of its `data` replaced, as an in-place
      assignment to the nested object does. */
  function WithField(r: Record, name: string, v: Value): (res: Record)
    requires r.Props? || r.FunRec?
    ensures res.Props? || res.FunRec?
    ensures Assoc.Get(res.data, name) == Some(v)
    ensures forall f :: f != name ==> Assoc.Get(res.data, f) == Assoc.Get(r.data, f)
  {
    if r.Props? then Props(r.kind, Assoc.Put(r.data, name, v), r.other)
    else FunRec(Assoc.Put(r.data, name, v), r.other, r.funType, r.funOptions)
  }

  /** `for fun in funs: if fun["ID"] == index: h[slot] = fun; break`, the
      function held as its position in the list. */
  function LinkFunction(h: Record, numField: string, slot: string, funs: seq<Record>, codec: FloatCodec): (r: Result<Record>)
  {
    var index :- Access.GetItem(h, numField, codec);
    var found :- FindFirst(funs, "ID", index, codec);
    match found
    case None => Ok(h)
    case Some(j) => Access.SetItem(h, slot, PObj(Ref(j)), codec)
  }

  /** The material part of `initialize`: a SatUnsat material's hydraulic
      record gets `KFn` and `VolWCFn`, the first functions of the matching
      lists whose ID equals `KFnNum` and `VolWCFnNum`. */
  function LinkMaterial(m: Record, t: Tree, codec: FloatCodec): (r: Result<Record>)
  {
    var seep :- Access.GetItem(m, "SeepModel", codec);
    if seep != VStr("SatUnsat") then Ok(m)
    else
      var hyd :- Access.GetItem(m, "Hydraulic", codec);
      if !(hyd.VValue? && hyd.v.Obj?) then Err(TypeError("object is not subscriptable"))
      else
        var kfns :- FunsAt(t, ["Material", "Hydraulic", "KFns"]);
        var h1 :- LinkFunction(hyd.v.rec, "KFnNum", "KFn", kfns, codec);
        var vfns :- FunsAt(t, ["Material", "Hydraulic", "VolWCFns"]);
        var h2 :- LinkFunction(h1, "VolWCFnNum", "VolWCFn", vfns, codec);
        Ok(WithField(m, "Hydraulic", Obj(h2)))
  }

  /** Every material linked in turn; the first failure stops the loop. */
  function LinkMaterials(ms: seq<Record>, t: Tree, codec: FloatCodec): (r: Result<seq<Record>>)
    ensures r.Ok? <==> forall i :: 0 <= i < |ms| ==> LinkMaterial(ms[i], t, codec).Ok?
    ensures r.Ok? ==> |r.value| == |ms|
    ensures r.Ok? ==> forall i :: 0 <= i < |ms| ==> LinkMaterial(ms[i], t, codec) == Ok(r.value[i])
  {
    if |ms| == 0 then Ok([])
    else
      var m :- LinkMaterial(ms[0], t, codec);
      var rest :- LinkMaterials(ms[1..], t, codec);
      assert forall i :: 1 <= i < |ms| ==> ms[i] == ms[1..][i - 1];
      Ok([m] + rest)
  }

  /** `analysis["Geometry"] = getGeometryByID(analysis["GeometryId"])`, the
      geometry held as its position. */
  function LinkAnalysis(a: Record, count: nat, codec: FloatCodec): (r: Result<Record>)
  {
    var id :- Access.GetItem(a, "GeometryId", codec);
    var g :- GeometryIndexAsWritten(count, id);
    Access.SetItem(a, "Geometry", PObj(Ref(g)), codec)
  }

  /** Every analysis linked in turn; the first failure stops the loop. */
  function LinkAnalyses(rs: seq<Record>, count: nat, codec: FloatCodec): (r: Result<seq<Record>>)
    ensures r.Ok? <==> forall i :: 0 <= i < |rs| ==> LinkAnalysis(rs[i], count, codec).Ok?
    ensures r.Ok? ==> |r.value| == |rs|
    ensures r.Ok? ==> forall i :: 0 <= i < |rs| ==> LinkAnalysis(rs[i], count, codec) == Ok(r.value[i])
  {
    if |rs| == 0 then Ok([])
    else
      var a :- LinkAnalysis(rs[0], count, codec);
      var rest :- LinkAnalyses(rs[1..], count, codec);
      assert forall i :: 1 <= i < |rs| ==> rs[i] == rs[1..][i - 1];
      Ok([a] + rest)
  }

  /** `getAnalysisByID(context["AnalysisID"])["Context"] = context` for the
      context at position `i`. */
  function LinkContext(analyses: seq<Record>, c: Record, i: nat, codec: FloatCodec): (r: Result<seq<Record>>)
    ensures r.Ok? ==> |r.value| == |analyses|
  {
    var aid :- Access.GetItem(c, "AnalysisID", codec);
    var j :- FindBy(analyses, "ID", aid, codec);
    var a :- Access.SetItem(analyses[j], "Context", PObj(Ref(i)), codec);
    Ok(analyses[j := a])
  }

  /** The contexts from position `i` on, each attached in turn. */
  function LinkContexts(analyses: seq<Record>, cs: seq<Record>, i: nat, codec: FloatCodec): (r: Result<seq<Record>>)
    requires i <= |cs|
    ensures r.Ok? ==> |r.value| == |analyses|
    decreases |cs| - i
  {
    if i == |cs| then Ok(analyses)
    else
      var a1 :- LinkContext(analyses, cs[i], i, codec);
      LinkContexts(a1, cs, i + 1, codec)
  }

  /** Every geometry's MeshId must convert with `int` (loading the mesh it
      names is outside the model). */
  function CheckMeshIds(gs: seq<Geometries.Geometry>): (r: Result<()>)
    ensures r.Ok? <==> forall i :: 0 <= i < |gs| ==> Geometries.GetItem(gs[i], "MeshId").Ok?
  {
    if |gs| == 0 then Ok(())
    else
      var _ :- Geometries.GetItem(gs[0], "MeshId");
      assert forall i :: 1 <= i < |gs| ==> gs[i] == gs[1..][i - 1];
      CheckMeshIds(gs[1..])
  }

  /** The linking steps of `initialize`, in order: meshes, materials,
      analyses, contexts. Linking changes the materials and the analyses
      and nothing else. */
  function Link(d: Doc, codec: FloatCodec): (r: Result<Doc>)
    ensures r.Ok? ==> r.value.items == d.items && r.value.rootTag == d.rootTag && r.value.rootAttrs == d.rootAttrs
    ensures r.Ok? ==> r.value.fileInfo == d.fileInfo && r.value.geometries == d.geometries && r.value.contexts == d.contexts &&
                      r.value.reinforcements == d.reinforcements && r.value.functions == d.functions
    ensures r.Ok? ==> |r.value.analyses| == |d.analyses| && |r.value.materials| == |d.materials|
  {
    var _ :- CheckMeshIds(d.geometries);
    var ms :- LinkMaterials(d.materials, d.functions, codec);
    var as1 :- LinkAnalyses(d.analyses, |d.geometries|, codec);
    var as2 :- LinkContexts(as1, d.contexts, 0, codec);
    Ok(d.(materials := ms, analyses := as2))
  }

  /** `GeoStudioFile(path)` once the main document has been parsed. */
  function Open(root: Element, codec: FloatCodec): (r: Result<Doc>)
    ensures r.Ok? ==> r.value.rootTag == root.tag && r.value.rootAttrs == root.attrs
    ensures r.Ok? ==> |r.value.items| == |root.children| &&
                      forall i :: 0 <= i < |root.children| ==> r.value.items[i] == ItemFor(root.children[i])
  {
    var d :- ReadSections(root.children, Fresh(root), codec);
    var linked :- Link(d, codec);
    ItemsFromNone(root.children, linked.items);
    Ok(linked)
  }

  /** Items recorded from none are one item per child. */
  lemma ItemsFromNone(cs: seq<Element>, after: seq<Item>)
    requires ItemsAfter([], cs, after)
    ensures |after| == |cs| && forall i :: 0 <= i < |cs| ==> after[i] == ItemFor(cs[i])
  {
    var none: seq<Item> := [];
    forall i | 0 <= i < |cs| ensures after[i] == ItemFor(cs[i]) {
      assert after[|none| + i] == ItemFor(cs[i]);
    }
  }

  // ---------------------------------------------------------------------
  // Writing

  /** One element per record, each written under the item tag. */
  function WriteRecords(rs: seq<Record>, tag: string, codec: FloatCodec): (r: Result<seq<Element>>)
    ensures r.Ok? ==> |r.value| == |rs| && forall i :: 0 <= i < |rs| ==> r.value[i].tag == tag
  {
    if |rs| == 0 then Ok([])
    else
      var w :- Marshal.WriteRecord(rs[0], tag, codec);
      var rest :- WriteRecords(rs[1..], tag, codec);
      Ok([w.0] + rest)
  }

  /** The `Geometry` element of one geometry. */
  function GeometryElement(g: Geometries.Geometry, codec: FloatCodec): (r: Result<Element>)
    ensures r.Ok? <==> g.points.Some? && g.lines.Some?
  {
    var cs :- Geometries.Write(g, codec);
    Ok(Element("Geometry", [], None, cs))
  }

  /** One `Geometry` element per geometry, in order. */
  function WriteGeometries(gs: seq<Geometries.Geometry>, codec: FloatCodec): (r: Result<seq<Element>>)
    ensures r.Ok? <==> forall i :: 0 <= i < |gs| ==> GeometryElement(gs[i], codec).Ok?
    ensures r.Ok? ==> |r.value| == |gs|
    ensures r.Ok? ==> forall i :: 0 <= i < |gs| ==> GeometryElement(gs[i], codec) == Ok(r.value[i])
  {
    if |gs| == 0 then Ok([])
    else
      var e := GeometryElement(gs[0], codec);
      Seqs.TailAt(gs);
      var rest := WriteGeometries(gs[1..], codec);
      if e.Err? then Err(e.error)
      else if rest.Err? then Err(rest.error)
      else
        Seqs.ConsAt(e.value, rest.value);
        Ok([e.value] + rest.value)
  }

  /** The element `genConfigurationFile` emits for one entry of
      `xml_items`: a collection is rewritten with `Len` set to its current
      size, an unknown section is appended unchanged. */
  function WriteItem(d: Doc, item: Item, date: string, time: string, codec: FloatCodec): (r: Result<Element>)
    ensures item.Passed? ==> r == Ok(item.e)
    ensures r.Ok? && item.Known? ==> r.value.tag == SectionTag(item.section)
    ensures r.Ok? && item == Known(GeometrySection) ==> r.value.attrs == [("Len", Text.IntStr(|d.geometries|))]
    ensures r.Ok? && item == Known(Analyses) ==> r.value.attrs == [("Len", Text.IntStr(|d.analyses|))]
    ensures r.Ok? && item == Known(Contexts) ==> r.value.attrs == [("Len", Text.IntStr(|d.contexts|))]
    ensures r.Ok? && item == Known(Materials) ==> r.value.attrs == [("Len", Text.IntStr(|d.materials|))]
    ensures r.Ok? && item == Known(Reinforcements) ==> r.value.attrs == [("Len", Text.IntStr(|d.reinforcements|))]
  {
    match item
    case Passed(e) => Ok(e)
    case Known(FileInfo) => FileInfos.FileInfoElement(d.fileInfo, date, time)
    case Known(GeometrySection) =>
      var cs :- WriteGeometries(d.geometries, codec);
      Ok(Counted("Geometries", cs))
    case Known(Analyses) =>
      var cs :- WriteRecords(d.analyses, "Analysis", codec);
      Ok(Counted("Analyses", cs))
    case Known(Contexts) =>
      var cs :- WriteRecords(d.contexts, "Context", codec);
      Ok(Counted("Contexts", cs))
    case Known(Materials) =>
      var cs :- WriteRecords(d.materials, "Material", codec);
      Ok(Counted("Materials", cs))
    case Known(Reinforcements) =>
      var cs :- WriteRecords(d.reinforcements, "Reinforcement", codec);
      Ok(Counted("Reinforcements", cs))
    case Known(Functions) =>
      var cs :- WriteTree(d.functions, codec);
      Ok(Element("Functions", [], None, cs))
  }

  function WriteItems(d: Doc, items: seq<Item>, date: string, time: string, codec: FloatCodec): (r: Result<seq<Element>>)
    ensures r.Ok? <==> forall i :: 0 <= i < |items| ==> WriteItem(d, items[i], date, time, codec).Ok?
    ensures r.Ok? ==> |r.value| == |items|
    ensures r.Ok? ==> forall i :: 0 <= i < |items| ==> WriteItem(d, items[i], date, time, codec) == Ok(r.value[i])
  {
    if |items| == 0 then Ok([])
    else
      var e :- WriteItem(d, items[0], date, time, codec);
      assert forall i :: 1 <= i < |items| ==> items[i] == items[1..][i - 1];
      var rest :- WriteItems(d, items[1..], date, time, codec);
      Ok([e] + rest)
  }

  /** `genConfigurationFile`, before serialisation: a root with the source
      root's tag and attributes and one child per recorded item. */
  function Generate(d: Doc, date: string, time: string, codec: FloatCodec): (r: Result<Element>)
    ensures r.Ok? ==> r.value.tag == d.rootTag && r.value.attrs == d.rootAttrs && r.value.text.None?
    ensures r.Ok? ==> |r.value.children| == |d.items|
    ensures r.Ok? ==> forall i :: 0 <= i < |d.items| && d.items[i].Passed? ==> r.value.children[i] == d.items[i].e
    ensures r.Ok? ==> forall i :: 0 <= i < |d.items| && d.items[i].Known? ==>
                        r.value.children[i].tag == SectionTag(d.items[i].section)
  {
    var cs :- WriteItems(d, d.items, date, time, codec);
    Ok(Element(d.rootTag, d.rootAttrs, None, cs))
  }

  // ---------------------------------------------------------------------
  // saveAs

  /** The inner document name of an archive path: the last path component
      without its last four characters. */
  function Prefix(path: string): string
  {
    Text.DropLastN(Text.LastPiece(path, '/'), 4)
  }

  /** The output name `saveAs` settles on, as written: the comparison with
      the source name comes before `.gsz` is appended. */
  function SaveAsNameAsWritten(src: string, out: string): (r: Result<string>)
    ensures out == src ==> r.Err? && r.error.ValueError?
    ensures out != src ==> r == Ok(WithExtension(out))
  {
    if out == src then Err(ValueError("The new file has the same name than the input file. Please write within another file or use the save() method"))
    else Ok(WithExtension(out))
  }

  /** `f_out`, with `.gsz` appended unless its last dot-separated piece is
      already `gsz`. */
  function WithExtension(out: string): (r: string)
    ensures Text.LastPiece(r, '.') == "gsz"
    ensures Text.LastPiece(out, '.') == "gsz" ==> r == out
    ensures Text.LastPiece(out, '.') != "gsz" ==> r == out + ".gsz"
  {
    if Text.LastPiece(out, '.') == "gsz" then out
    else
      assert out + ".gsz" == out + ['.'] + "gsz";
      Text.LastPieceAfter(out, '.', "gsz");
      Text.SplitNone("gsz", '.');
      out + ".gsz"
  }

  /** `saveAs` comparing the name it will actually write. */
  function SaveAsName(src: string, out: string): (r: Result<string>)
    ensures r.Ok? <==> WithExtension(out) != src
    ensures r.Ok? ==> r.value != src && Text.LastPiece(r.value, '.') == "gsz" && r.value == WithExtension(out)
  {
    var target := WithExtension(out);
    if target == src then Err(ValueError("The new file has the same name than the input file. Please write within another file or use the save() method"))
    else Ok(target)
  }
}
