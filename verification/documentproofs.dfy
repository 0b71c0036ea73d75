/** What a study promises as a whole: sections it does not know pass
    through untouched, Len-prefixed collections read back what was written,
    linking attaches what it finds, and the lookups that go wrong as
    written. */
module DocumentProofs {
  import opened Wrappers
  import opened Xml
  import opened Schema
  import opened Values
  import opened Documents
  import opened FunctionTrees
  import Assoc
  import Text
  import Marshal
  import MarshalProofs
  import Access
  import Geometries
  import GeometryProofs
  import Seqs

  // ---------------------------------------------------------------------
  // Unknown sections

  predicate AllUnknown(cs: seq<Element>)
  {
    forall i :: 0 <= i < |cs| ==> SectionOf(cs[i].tag).None?
  }

  function Passes(cs: seq<Element>): (r: seq<Item>)
    ensures |r| == |cs| && forall i :: 0 <= i < |cs| ==> r[i] == Passed(cs[i])
  {
    seq(|cs|, i requires 0 <= i < |cs| => Passed(cs[i]))
  }

  /** One unknown section is recorded and nothing else changes. */
  lemma ReadSectionsStep(cs: seq<Element>, d: Doc, codec: FloatCodec)
    requires |cs| > 0 && SectionOf(cs[0].tag).None?
    ensures ReadSections(cs, d, codec) == ReadSections(cs[1..], d.(items := d.items + [Passed(cs[0])]), codec)
  {
    var r1 := ReadSection(cs[0], d, codec);
    assert r1 == Ok(d.(items := d.items + [Passed(cs[0])]));
  }

  lemma PassesCons(cs: seq<Element>)
    requires |cs| > 0
    ensures Passes(cs) == [Passed(cs[0])] + Passes(cs[1..])
  {
  }

  lemma AllUnknownTail(cs: seq<Element>)
    requires |cs| > 0 && AllUnknown(cs)
    ensures AllUnknown(cs[1..])
  {
    forall i | 0 <= i < |cs[1..]| ensures SectionOf(cs[1..][i].tag).None? {
      assert cs[1..][i] == cs[i + 1];
    }
  }

  lemma {:induction false} ReadSectionsUnknown(cs: seq<Element>, d: Doc, codec: FloatCodec)
    requires AllUnknown(cs)
    ensures ReadSections(cs, d, codec) == Ok(d.(items := d.items + Passes(cs)))
    decreases |cs|
  {
    if |cs| == 0 {
      assert d.items + Passes(cs) == d.items;
    } else {
      var items1 := d.items + [Passed(cs[0])];
      var d1 := d.(items := items1);
      ReadSectionsStep(cs, d, codec);
      AllUnknownTail(cs);
      ReadSectionsUnknown(cs[1..], d1, codec);
      PassesCons(cs);
      Seqs.AppendAssoc(d.items, [Passed(cs[0])], Passes(cs[1..]));
    }
  }

  /** Linking a study without collections changes nothing. */
  lemma LinkEmpty(d: Doc, codec: FloatCodec)
    requires d.geometries == [] && d.materials == [] && d.analyses == [] && d.contexts == []
    ensures Link(d, codec) == Ok(d)
  {
    assert CheckMeshIds([]) == Ok(());
    assert LinkMaterials([], d.functions, codec) == Ok([]);
    assert LinkAnalyses([], 0, codec) == Ok([]);
    assert LinkContexts([], [], 0, codec) == Ok([]);
  }

  /** A study made only of sections the reader does not know opens with
      those sections recorded in order. */
  lemma OpenUnknown(root: Element, codec: FloatCodec)
    requires AllUnknown(root.children)
    ensures Open(root, codec) == Ok(Fresh(root).(items := Passes(root.children)))
  {
    ReadSectionsUnknown(root.children, Fresh(root), codec);
    assert Fresh(root).items + Passes(root.children) == Passes(root.children);
    LinkEmpty(Fresh(root).(items := Passes(root.children)), codec);
  }

  /** Recorded unknown sections are written back as they were read. */
  lemma WriteUnknown(d: Doc, cs: seq<Element>, date: string, time: string, codec: FloatCodec)
    ensures WriteItems(d, Passes(cs), date, time, codec) == Ok(cs)
  {
    var items := Passes(cs);
    assert forall i :: 0 <= i < |items| ==> WriteItem(d, items[i], date, time, codec) == Ok(cs[i]);
    var r := WriteItems(d, items, date, time, codec);
    assert r.Ok?;
    assert r.value == cs;
  }

  /** ... and the whole study is written back as the same root with the
      same children. */
  lemma PassThrough(root: Element, date: string, time: string, codec: FloatCodec)
    requires AllUnknown(root.children)
    ensures Open(root, codec).Ok?
    ensures Generate(Open(root, codec).value, date, time, codec) == Ok(Element(root.tag, root.attrs, None, root.children))
  {
    OpenUnknown(root, codec);
    var d := Fresh(root).(items := Passes(root.children));
    WriteUnknown(d, root.children, date, time, codec);
  }

  // ---------------------------------------------------------------------
  // Len-prefixed collections

  /** Reading the first `n` children succeeds exactly when there are `n`
      of them and each reads. */
  lemma {:induction false} ReadFirstOk<T>(read: Element -> Result<T>, cs: seq<Element>, n: nat)
    ensures ReadFirst(read, cs, n).Ok? <==> n <= |cs| && forall i :: 0 <= i < n ==> read(cs[i]).Ok?
    decreases n
  {
    if n > 0 && |cs| > 0 {
      ReadFirstOk(read, cs[1..], n - 1);
      assert forall i :: 1 <= i < n && i < |cs| ==> cs[i] == cs[1..][i - 1];
    }
  }

  /** The spelled-out readers are the generic one. */
  lemma {:induction false} ReadFirstRecordsGeneric(k: Kind, cs: seq<Element>, n: nat, codec: FloatCodec)
    ensures ReadFirstRecords(k, cs, n, codec) == ReadFirst(RecordReader(k, codec), cs, n)
    decreases n
  {
    if n > 0 && |cs| > 0 {
      var x := Marshal.ReadRecord(k, cs[0], codec);
      var rest := ReadFirstRecords(k, cs[1..], n - 1, codec);
      ReadFirstRecordsGeneric(k, cs[1..], n - 1, codec);
      assert RecordReader(k, codec)(cs[0]) == x;
      assert ReadFirstRecords(k, cs, n, codec) == (if x.Err? then Err(x.error) else if rest.Err? then Err(rest.error) else Ok([x.value] + rest.value));
    }
  }

  lemma {:induction false} ReadFirstGeometriesGeneric(cs: seq<Element>, n: nat, codec: FloatCodec)
    ensures ReadFirstGeometries(cs, n, codec) == ReadFirst(GeometryReader(codec), cs, n)
    decreases n
  {
    if n > 0 && |cs| > 0 {
      ReadFirstGeometriesGeneric(cs[1..], n - 1, codec);
      assert GeometryReader(codec)(cs[0]) == Geometries.Read(cs[0], codec);
    }
  }

  lemma ReadFirstRecordsOk(k: Kind, cs: seq<Element>, n: nat, codec: FloatCodec)
    ensures ReadFirstRecords(k, cs, n, codec).Ok? <==>
      n <= |cs| && forall i :: 0 <= i < n ==> Marshal.ReadRecord(k, cs[i], codec).Ok?
  {
    ReadFirstRecordsGeneric(k, cs, n, codec);
    ReadFirstOk(RecordReader(k, codec), cs, n);
  }

  /** Children after the first `n` ones are never looked at. */
  lemma {:induction false} ReadFirstPrefix<T>(read: Element -> Result<T>, cs: seq<Element>, extra: seq<Element>, n: nat)
    requires n <= |cs|
    ensures ReadFirst(read, cs + extra, n) == ReadFirst(read, cs, n)
    decreases n
  {
    if n > 0 {
      assert (cs + extra)[0] == cs[0];
      assert (cs + extra)[1..] == cs[1..] + extra;
      ReadFirstPrefix(read, cs[1..], extra, n - 1);
    }
  }

  lemma ReadFirstRecordsPrefix(k: Kind, cs: seq<Element>, extra: seq<Element>, n: nat, codec: FloatCodec)
    requires n <= |cs|
    ensures ReadFirstRecords(k, cs + extra, n, codec) == ReadFirstRecords(k, cs, n, codec)
  {
    ReadFirstRecordsGeneric(k, cs, n, codec);
    ReadFirstRecordsGeneric(k, cs + extra, n, codec);
    ReadFirstPrefix(RecordReader(k, codec), cs, extra, n);
  }

  /** Children that read as given values, in order, read as the list of
      those values. */
  lemma {:induction false} ReadFirstAll<T>(read: Element -> Result<T>, cs: seq<Element>, xs: seq<T>)
    requires |xs| <= |cs|
    requires forall i :: 0 <= i < |xs| ==> read(cs[i]) == Ok(xs[i])
    ensures ReadFirst(read, cs, |xs|) == Ok(xs)
    decreases |xs|
  {
    if |xs| > 0 {
      assert forall i :: 0 <= i < |xs[1..]| ==> cs[1..][i] == cs[i + 1] && xs[1..][i] == xs[i + 1];
      ReadFirstAll(read, cs[1..], xs[1..]);
      assert [xs[0]] + xs[1..] == xs;
    }
  }

  /** The `Len` of a written collection reads back as its size. */
  lemma CountCounted(tag: string, cs: seq<Element>)
    ensures Count(Counted(tag, cs)) == Ok(|cs|)
  {
    Text.IntStrRoundTrip(|cs|);
  }

  lemma ReadFirstGeometriesAll(cs: seq<Element>, gs: seq<Geometries.Geometry>, codec: FloatCodec)
    requires |gs| <= |cs|
    requires forall i :: 0 <= i < |gs| ==> Geometries.Read(cs[i], codec) == Ok(gs[i])
    ensures ReadFirstGeometries(cs, |gs|, codec) == Ok(gs)
  {
    ReadFirstGeometriesGeneric(cs, |gs|, codec);
    ReadFirstAll(GeometryReader(codec), cs, gs);
  }

  /** The Geometries section: every geometry written is read back, in
      order, from the section `genConfigurationFile` emits. */
  lemma GeometriesRoundTrip(gs: seq<Geometries.Geometry>, codec: FloatCodec)
    requires forall i :: 0 <= i < |gs| ==> GeometryProofs.Good(gs[i]) && GeometryProofs.Shown(gs[i].points.value, codec)
    ensures WriteGeometries(gs, codec).Ok?
    ensures ReadGeometries(Counted("Geometries", WriteGeometries(gs, codec).value), codec) == Ok(gs)
  {
    forall i | 0 <= i < |gs|
      ensures GeometryElement(gs[i], codec).Ok?
      ensures Geometries.Read(GeometryElement(gs[i], codec).value, codec) == Ok(gs[i])
    {
      GeometryProofs.RoundTrip(gs[i], "Geometry", codec);
    }
    var cs := WriteGeometries(gs, codec).value;
    CountCounted("Geometries", cs);
    ReadFirstGeometriesAll(cs, gs, codec);
  }

  /** A record the generic marshaller writes and reads back unchanged. */
  predicate GenericRecord(k: Kind, r: Record)
  {
    r.Props? && r.kind == k && MarshalProofs.GenericKind(k) && Marshal.InitFields(k, r.data) == r.data &&
    Assoc.Unique(r.data) &&
    (forall i :: 0 <= i < |r.data| ==> MarshalProofs.Carried(k, r.data[i])) &&
    (forall i :: 0 <= i < |r.other| ==> MarshalProofs.Opaque(ParameterTypes(k), r.other[i]))
  }

  function GenericElement(k: Kind, r: Record, tag: string): Element
    requires GenericRecord(k, r)
  {
    Element(tag, [], None, MarshalProofs.CarriedElements(k, r.data) + r.other)
  }

  lemma WriteRecordsHead(k: Kind, rs: seq<Record>, tag: string, codec: FloatCodec)
    requires |rs| > 0 && GenericRecord(k, rs[0])
    ensures WriteRecords(rs, tag, codec) ==
      (match WriteRecords(rs[1..], tag, codec)
       case Err(err) => Err(err)
       case Ok(rest) => Ok([GenericElement(k, rs[0], tag)] + rest))
  {
    var r := rs[0];
    MarshalProofs.GenericWrite(k, r.data, r.other, tag, codec);
    assert r == Props(k, r.data, r.other);
  }

  lemma {:induction false} WriteRecordsGeneric(k: Kind, rs: seq<Record>, tag: string, codec: FloatCodec)
    requires forall i :: 0 <= i < |rs| ==> GenericRecord(k, rs[i])
    ensures WriteRecords(rs, tag, codec).Ok?
    ensures forall i :: 0 <= i < |rs| ==> WriteRecords(rs, tag, codec).value[i] == GenericElement(k, rs[i], tag)
    decreases |rs|
  {
    if |rs| > 0 {
      WriteRecordsHead(k, rs, tag, codec);
      assert forall i :: 0 <= i < |rs[1..]| ==> rs[1..][i] == rs[i + 1];
      WriteRecordsGeneric(k, rs[1..], tag, codec);
    }
  }

  lemma ReadFirstRecordsAll(k: Kind, cs: seq<Element>, rs: seq<Record>, codec: FloatCodec)
    requires |rs| <= |cs|
    requires forall i :: 0 <= i < |rs| ==> Marshal.ReadRecord(k, cs[i], codec) == Ok(rs[i])
    ensures ReadFirstRecords(k, cs, |rs|, codec) == Ok(rs)
  {
    ReadFirstRecordsGeneric(k, cs, |rs|, codec);
    ReadFirstAll(RecordReader(k, codec), cs, rs);
  }

  /** The Analyses, Materials and Reinforcements sections: records made of
      the fields the generic marshaller carries are read back, in order,
      from the section `genConfigurationFile` emits. */
  lemma RecordsRoundTrip(k: Kind, rs: seq<Record>, section: string, tag: string, codec: FloatCodec)
    requires forall i :: 0 <= i < |rs| ==> GenericRecord(k, rs[i])
    ensures WriteRecords(rs, tag, codec).Ok?
    ensures ReadCollection(k, Counted(section, WriteRecords(rs, tag, codec).value), codec) == Ok(rs)
  {
    WriteRecordsGeneric(k, rs, tag, codec);
    var cs := WriteRecords(rs, tag, codec).value;
    forall i | 0 <= i < |rs| ensures Marshal.ReadRecord(k, cs[i], codec) == Ok(rs[i]) {
      MarshalProofs.GenericRead(k, rs[i].data, rs[i].other, tag, codec);
      assert rs[i] == Props(k, rs[i].data, rs[i].other);
    }
    CountCounted(section, cs);
    ReadFirstRecordsAll(k, cs, rs, codec);
  }

  // ---------------------------------------------------------------------
  // The shared list of `__functionToList__`

  /** A first match in a list stays the first match once more records are
      appended after it. */
  lemma {:induction false} FindFirstPrefix(a: seq<Record>, b: seq<Record>, field: string, want: PyVal, codec: FloatCodec)
    requires FindFirst(a, field, want, codec).Ok? && FindFirst(a, field, want, codec).value.Some?
    ensures FindFirst(a + b, field, want, codec) == FindFirst(a, field, want, codec)
  {
    var ab := a + b;
    assert ab[0] == a[0] && ab[1..] == a[1..] + b;
    var v := Access.GetItem(a[0], field, codec);
    if v.value != want {
      FindFirstPrefix(a[1..], b, field, want, codec);
    }
  }

  /** `getFunctionByName` as written, called on a second study after a
      first one, returns the first study's Function whenever the first
      study had one of that name, whatever the second study holds. */
  lemma SharedListLeaks(d1: Doc, d2: Doc, name: string, codec: FloatCodec)
    requires FunctionByNameAsWritten(d1, name, [], codec).Ok?
    ensures var (i, l1) := FunctionByNameAsWritten(d1, name, [], codec).value;
      l1 == FunctionList(d1.functions) && i < |FunctionList(d1.functions)| &&
      FunctionByNameAsWritten(d2, name, l1, codec) == Ok((i, l1 + FunctionList(d2.functions)))
  {
    var l1 := FunctionList(d1.functions);
    assert FunctionToList(d1.functions, []) == l1 by { assert [] + l1 == l1; }
    var i := FindBy(l1, "Name", VStr(name), codec).value;
    var f := FindFirst(l1, "Name", VStr(name), codec);
    assert f == Ok(Some(i));
    var l2 := FunctionToList(d2.functions, l1);
    FindFirstPrefix(l1, FunctionList(d2.functions), "Name", VStr(name), codec);
    assert FindBy(l2, "Name", VStr(name), codec) == Ok(i);
  }

  /** And `study["Functions"]` as written lists every Function once more
      on each call. */
  lemma FunctionsListGrows(d: Doc)
    ensures var l1 := GetItemAsWritten(d, "Functions", []).value.1;
      l1 == FunctionList(d.functions) &&
      GetItemAsWritten(d, "Functions", l1).value.0 == FunctionList(d.functions) + FunctionList(d.functions)
  {
  }

  // ---------------------------------------------------------------------
  // getGeometryByID

  /** As written, ID 0 passes the range check and Python's negative
      indexing hands out the last geometry; the corrected lookup refuses it. */
  lemma GeometryZeroIsLast(count: nat)
    requires count > 0
    ensures GeometryIndexAsWritten(count, VInt(0)) == Ok(count - 1)
    ensures count >= 2 ==> GeometryIndexAsWritten(count, VInt(-1)) == Ok(count - 2)
    ensures GeometryIndex(count, VInt(0)).Err?
  {
  }

  // ---------------------------------------------------------------------
  // saveAs

  /** As written, `saveAs("study")` on `study.gsz` passes the name check
      and then targets the source archive itself; the corrected check
      refuses it. */
  lemma SaveAsOverwritesSource()
    ensures SaveAsNameAsWritten("study.gsz", "study") == Ok("study.gsz")
    ensures SaveAsName("study.gsz", "study").Err?
  {
    Text.SplitNone("study", '.');
    assert Text.LastPiece("study", '.') == "study";
    assert WithExtension("study") == "study.gsz";
  }

  // ---------------------------------------------------------------------
  // Linking

  /** Attaching a context: the analysis found is the first whose ID is
      the context's AnalysisID, an Analysis stores the context's position
      under "Context", and no other analysis changes. */
  lemma LinkContextAttaches(analyses: seq<Record>, c: Record, i: nat, codec: FloatCodec)
    requires LinkContext(analyses, c, i, codec).Ok?
    ensures var aid := Access.GetItem(c, "AnalysisID", codec).value;
      var j := FindBy(analyses, "ID", aid, codec).value;
      var r := LinkContext(analyses, c, i, codec).value;
      j < |analyses| && Access.GetItem(analyses[j], "ID", codec) == Ok(aid) &&
      (analyses[j].Props? && analyses[j].kind == Analysis ==> Assoc.Get(r[j].data, "Context") == Some(Ref(i))) &&
      forall k :: 0 <= k < |analyses| && k != j ==> r[k] == analyses[k]
  {
  }

  /** Attaching a function: when a function's ID equals the record's
      number field, the slot holds that function's position (for a
      hydraulic record, whose KFn and VolWCFn slots are kept as objects);
      when none does, the record is unchanged. */
  lemma LinkFunctionAttaches(h: Record, numField: string, slot: string, funs: seq<Record>, codec: FloatCodec)
    requires LinkFunction(h, numField, slot, funs, codec).Ok?
    ensures var index := Access.GetItem(h, numField, codec).value;
      var found := FindFirst(funs, "ID", index, codec).value;
      var r := LinkFunction(h, numField, slot, funs, codec).value;
      (found.None? ==> r == h) &&
      (found.Some? ==> found.value < |funs| && Access.GetItem(funs[found.value], "ID", codec) == Ok(index) &&
                       (h.Props? && slot in MyData(h.kind) ==> Assoc.Get(r.data, slot) == Some(Ref(found.value))))
  {
  }

  /** Attaching a geometry: the analysis' GeometryId is an integer the
      lookup accepts, from `1 - count` to `count`, and an Analysis stores
      the position it names: ID-1 for an ID from 1, and a position counted
      from the end for an ID of 0 or below. */
  lemma LinkAnalysisAttaches(a: Record, count: nat, codec: FloatCodec)
    requires LinkAnalysis(a, count, codec).Ok?
    ensures var id := Access.GetItem(a, "GeometryId", codec).value;
      id.VInt? && -(count as int) < id.i <= count &&
      (a.Props? && a.kind == Analysis ==>
        Assoc.Get(LinkAnalysis(a, count, codec).value.data, "Geometry")
          == Some(Ref(if id.i >= 1 then id.i - 1 else id.i - 1 + count)))
  {
    LinkAnalysisSteps(a, count, codec);
    var id := Access.GetItem(a, "GeometryId", codec).value;
    var g := GeometryIndexAsWritten(count, id).value;
    if a.Props? && a.kind == Analysis {
      GeometryStored(a, g, codec);
    }
  }

  lemma LinkAnalysisSteps(a: Record, count: nat, codec: FloatCodec)
    requires LinkAnalysis(a, count, codec).Ok?
    ensures Access.GetItem(a, "GeometryId", codec).Ok?
    ensures GeometryIndexAsWritten(count, Access.GetItem(a, "GeometryId", codec).value).Ok?
    ensures LinkAnalysis(a, count, codec) ==
      Access.SetItem(a, "Geometry", PObj(Ref(GeometryIndexAsWritten(count, Access.GetItem(a, "GeometryId", codec).value).value)), codec)
  {
  }

  /** Setting an Analysis' geometry stores the reference as given. */
  lemma GeometryStored(a: Record, g: nat, codec: FloatCodec)
    requires a.Props? && a.kind == Analysis
    requires Access.SetItem(a, "Geometry", PObj(Ref(g)), codec).Ok?
    ensures Assoc.Get(Access.SetItem(a, "Geometry", PObj(Ref(g)), codec).value.data, "Geometry") == Some(Ref(g))
  {
    var arg := PObj(Ref(g));
    GeometryIsMyData();
    var d := Access.Assign(Analysis, a.data, "Geometry", arg, codec);
    assert Access.Raw(Access.Normalize(arg)) == Ok(Ref(g));
    assert Access.SetItem(a, "Geometry", arg, codec).value.data == d.value;
  }

  /** Linking succeeds only when every geometry's MeshId converts and
      every material and every analysis links (the GeometryId lookup as
      written); each material is then as linking it alone leaves it. */
  lemma LinkChecks(d: Doc, codec: FloatCodec)
    requires Link(d, codec).Ok?
    ensures forall i :: 0 <= i < |d.geometries| ==> Geometries.GetItem(d.geometries[i], "MeshId").Ok?
    ensures forall i :: 0 <= i < |d.materials| ==> LinkMaterial(d.materials[i], d.functions, codec) == Ok(Link(d, codec).value.materials[i])
    ensures forall i :: 0 <= i < |d.analyses| ==> LinkAnalysis(d.analyses[i], |d.geometries|, codec).Ok?
  {
    var ms := LinkMaterials(d.materials, d.functions, codec);
    var as1 := LinkAnalyses(d.analyses, |d.geometries|, codec);
    assert CheckMeshIds(d.geometries).Ok? && ms.Ok? && as1.Ok?;
    assert Link(d, codec).value.materials == ms.value;
  }

  /** An Analysis keeps its geometry as a Python object. */
  lemma GeometryIsMyData()
    ensures "Geometry" in MyData(Analysis)
  {
  }
}
