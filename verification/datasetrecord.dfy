/** The operations of a `Dataset` record beyond the generic marshaller:
    loading a data array and naming its columns. */
module DatasetRecords {
  import opened Wrappers
  import opened Xml
  import opened Schema
  import opened Values
  import Assoc
  import Text
  import Datasets
  import Marshal
  import MarshalProofs
  import Access
  import AccessProofs

  /** A Dataset record. */
  predicate IsDataset(r: Record)
  {
    r.Props? && r.kind == Dataset
  }

  // ---------------------------------------------------------------------
  // loadDataFromArray

  /** `loadDataFromArray(arr)` as written: Data becomes the array and
      NumRows its row count, stored as a Python int. */
  function LoadDataFromArrayAsWritten(r: Record, width: nat, rows: seq<seq<real>>): (res: Record)
    requires IsDataset(r)
    ensures IsDataset(res) && res.other == r.other
    ensures Assoc.Get(res.data, "Data") == Some(Table(width, rows))
    ensures Assoc.Get(res.data, "NumRows") == Some(Num(|rows|))
    ensures forall f :: f != "Data" && f != "NumRows" ==> Assoc.Get(res.data, f) == Assoc.Get(r.data, f)
  {
    Props(Dataset, Assoc.Put(Assoc.Put(r.data, "Data", Table(width, rows)), "NumRows", Num(|rows|)), r.other)
  }

  /** A dataset loaded that way cannot be written: NumRows is not a string,
      and `__write__` only writes strings for scalar fields. */
  lemma LoadedAsWrittenNotWritable(r: Record, width: nat, rows: seq<seq<real>>, tag: string, codec: FloatCodec)
    requires IsDataset(r)
    ensures Marshal.WriteRecord(LoadDataFromArrayAsWritten(r, width, rows), tag, codec).Err?
  {
    var data := Assoc.Put(Assoc.Put(r.data, "Data", Table(width, rows)), "NumRows", Num(|rows|));
    assert LoadDataFromArrayAsWritten(r, width, rows) == Props(Dataset, data, r.other);
    IntNumRowsNotWritable(data, r.other, |rows|, tag, codec);
  }

  /** A Dataset whose NumRows is a Python int cannot be written. */
  lemma IntNumRowsNotWritable(data: Fields, other: seq<Element>, n: nat, tag: string, codec: FloatCodec)
    requires Assoc.Get(data, "NumRows") == Some(Num(n))
    ensures Marshal.WriteRecord(Props(Dataset, data, other), tag, codec).Err?
  {
    var i :| 0 <= i < |data| && data[i] == ("NumRows", Num(n));
    NumRowsIsInt();
    assert data[i].0 !in MyData(Dataset);
    MarshalProofs.UnwritableFieldFails(Dataset, data, codec, i);
    MarshalProofs.FieldFailureFailsWrite(Dataset, data, other, tag, codec);
  }

  /** `loadDataFromArray(arr)` with the row count stored as its string, the
      form every other scalar field has. */
  function LoadDataFromArray(r: Record, width: nat, rows: seq<seq<real>>): (res: Record)
    requires IsDataset(r)
    ensures IsDataset(res) && res.other == r.other
    ensures Assoc.Get(res.data, "Data") == Some(Table(width, rows))
    ensures Assoc.Get(res.data, "NumRows") == Some(Text(Some(Text.IntStr(|rows|))))
    ensures forall f :: f != "Data" && f != "NumRows" ==> Assoc.Get(res.data, f) == Assoc.Get(r.data, f)
  {
    Props(Dataset, Assoc.Put(Assoc.Put(r.data, "Data", Table(width, rows)), "NumRows", Text(Some(Text.IntStr(|rows|)))), r.other)
  }

  /** A dataset declares NumRows an integer field. */
  lemma NumRowsIsInt()
    ensures TypeOf(ParameterTypes(Dataset), "NumRows") == Some(Int)
  {
  }

  /** The corrected NumRows reads back as the row count and is written as
      its decimal text. */
  lemma LoadedNumRows(r: Record, width: nat, rows: seq<seq<real>>, codec: FloatCodec)
    requires IsDataset(r)
    ensures Access.GetItem(LoadDataFromArray(r, width, rows), "NumRows", codec) == Ok(VInt(|rows|))
    ensures Marshal.WriteValue("NumRows", Assoc.Get(LoadDataFromArray(r, width, rows).data, "NumRows").value)
         == Ok(Leaf("NumRows", Some(Text.IntStr(|rows|))))
  {
    var res := LoadDataFromArray(r, width, rows);
    NumRowsIsInt();
    AccessProofs.IntFieldReads(Dataset, res.data, res.other, "NumRows", |rows|, codec);
  }

  // ---------------------------------------------------------------------
  // setDataParameters

  /** `setDataParameters(params)` as written: its first step reads
      `self.data.shape`, and `data` is a dict, so every call raises. */
  function SetDataParametersAsWritten(r: Record, params: seq<string>): (res: Result<Record>)
    requires IsDataset(r)
  {
    Err(AttributeError("'dict' object has no attribute 'shape'"))
  }

  /** No dataset and no parameter list gets through. */
  lemma SetDataParametersAsWrittenFails(r: Record, params: seq<string>)
    requires IsDataset(r)
    ensures SetDataParametersAsWritten(r, params).Err?
    ensures SetDataParametersAsWritten(r, params).error.AttributeError?
  {
  }

  predicate AllKnown(params: seq<string>)
  {
    forall i :: 0 <= i < |params| ==> params[i] in Datasets.ParameterNames
  }

  function Somes(params: seq<string>): (r: seq<Option<string>>)
    ensures |r| == |params| && forall i :: 0 <= i < |params| ==> r[i] == Some(params[i])
  {
    seq(|params|, i requires 0 <= i < |params| => Some(params[i]))
  }

  /** The column count of the Data array, if Data is an array. */
  function Columns(data: Fields): Option<nat>
  {
    var v: Option<Value> := Assoc.Get(data, "Data");
    if v.Some? && v.value.Table? then Some(v.value.width) else None
  }

  /** Parameters holds a DatasetParameters object. */
  predicate HasParamsObject(data: Fields)
  {
    var v: Option<Value> := Assoc.Get(data, "Parameters");
    v.Some? && v.value.Obj? && v.value.rec.ParamsRec?
  }

  /** `setDataParameters(params)` reading the column count from the data
      array: the list must have one name per column, every name must be a
      GeoStudio dataset parameter, and the names replace those of the
      Parameters object. */
  function SetDataParameters(r: Record, params: seq<string>): (res: Result<Record>)
    requires IsDataset(r)
    ensures res.Ok? <==> Columns(r.data) == Some(|params|) && AllKnown(params) && HasParamsObject(r.data)
    ensures res.Ok? ==>
      IsDataset(res.value) && res.value.other == r.other &&
      Assoc.Get(res.value.data, "Parameters") == Some(Obj(ParamsRec(Somes(params)))) &&
      forall f :: f != "Parameters" ==> Assoc.Get(res.value.data, f) == Assoc.Get(r.data, f)
    ensures (Columns(r.data).Some? && Columns(r.data) != Some(|params|)) ==> res.Err? && res.error.ValueError?
    ensures (Columns(r.data) == Some(|params|) && !AllKnown(params)) ==> res.Err? && res.error.ValueError?
  {
    var d: Option<Value> := Assoc.Get(r.data, "Data");
    if d.None? then Err(KeyError("Data"))
    else if !d.value.Table? then Err(AttributeError("shape"))
    else if |params| != d.value.width then
      Err(ValueError("The list of parameter and number of column in the dataset should have the same length"))
    else if !AllKnown(params) then
      Err(ValueError("Parameter dataset not recognized"))
    else
      var p: Option<Value> := Assoc.Get(r.data, "Parameters");
      if p.None? then Err(KeyError("Parameters"))
      else if !(p.value.Obj? && p.value.rec.ParamsRec?) then Err(AttributeError("params"))
      else Ok(Props(Dataset, Assoc.Put(r.data, "Parameters", Obj(ParamsRec(Somes(params)))), r.other))
  }

  /** After naming the columns, the Parameters field writes one `Parameter`
      child per name, with `Len` equal to the number of columns, and reads
      back as the same names. */
  lemma SetParametersThenWrite(r: Record, params: seq<string>, codec: FloatCodec)
    requires IsDataset(r) && SetDataParameters(r, params).Ok?
    ensures var w := Datasets.WriteParams("Parameters", Somes(params));
      IntAttr(w, "Len") == Ok(Columns(r.data).value) &&
      Datasets.ReadParams(w) == ParamsRec(Somes(params))
  {
    Datasets.ParamsRoundTrip("Parameters", Somes(params));
  }
}
