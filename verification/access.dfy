/** Typed access to a property record: `__getitem__` and `__setitem__` of
    `BasePropertiesClass`, with the overrides of `Function`. */
module Access {
  import opened Wrappers
  import opened Xml
  import opened Schema
  import opened Values
  import Assoc
  import Text

  // ---------------------------------------------------------------------
  // The type constructors applied by `__getitem__`

  /** `int(v)`. */
  function IntOf(v: Value): (r: Result<PyVal>)
    ensures r.Ok? ==> r.value.VInt?
    ensures v.Text? && v.text.Some? ==> (r.Ok? <==> Text.ParseInt(v.text.value).Some?)
    ensures v.Num? ==> r == Ok(VInt(v.n))
  {
    match v
    case Text(None) => Err(TypeError("int() argument must be a string, not 'NoneType'"))
    case Text(Some(s)) =>
      (match Text.ParseInt(s)
       case None => Err(ValueError("invalid literal for int(): " + s))
       case Some(n) => Ok(VInt(n)))
    case Num(n) => Ok(VInt(n))
    case Table(_, _) => Err(NotModelled("int() of an array"))
    case _ => Err(TypeError("int() argument must be a string or a number"))
  }

  /** `float(v)`, with the text conversion left to the codec. */
  function FloatOf(v: Value, codec: FloatCodec): (r: Result<PyVal>)
    ensures r.Ok? ==> r.value.VFloat?
    ensures v.Text? && v.text.Some? ==> (r.Ok? <==> codec.parse(v.text.value).Some?)
    ensures v.Num? ==> r == Ok(VFloat(v.n as real))
  {
    match v
    case Text(None) => Err(TypeError("float() argument must be a string or a number, not 'NoneType'"))
    case Text(Some(s)) =>
      (match codec.parse(s)
       case None => Err(ValueError("could not convert string to float: " + s))
       case Some(x) => Ok(VFloat(x)))
    case Num(n) => Ok(VFloat(n as real))
    case Table(_, _) => Err(NotModelled("float() of an array"))
    case _ => Err(TypeError("float() argument must be a string or a number"))
  }

  /** `str(v)` for the values whose text is defined here: strings, None and
      integers. */
  function StrOf(v: Value): (r: Result<PyVal>)
    ensures r.Ok? <==> v.Text? || v.Num?
    ensures v == Text(None) ==> r == Ok(VStr("None"))
    ensures r.Ok? ==> r.value.VStr?
  {
    match v
    case Text(None) => Ok(VStr("None"))
    case Text(Some(s)) => Ok(VStr(s))
    case Num(n) => Ok(VStr(Text.IntStr(n)))
    case _ => Err(NotModelled("str() of a container or an object"))
  }

  /** `bool(v)`: Python truthiness. A string is true exactly when it is not
      empty, whatever it says. */
  function BoolOf(v: Value): (r: Result<PyVal>)
    ensures r.Ok? <==> !v.Table?
    ensures r.Ok? ==> r.value.VBool?
    ensures v.Text? && v.text.Some? ==> r == Ok(VBool(v.text.value != ""))
  {
    match v
    case Text(None) => Ok(VBool(false))
    case Text(Some(s)) => Ok(VBool(|s| > 0))
    case Num(n) => Ok(VBool(n != 0))
    case Attrib(a) => Ok(VBool(|a| > 0))
    case Pairs(ps) => Ok(VBool(|ps| > 0))
    case AttribList(ds) => Ok(VBool(|ds| > 0))
    case IntMap(m) => Ok(VBool(|m| > 0))
    case Names(ns) => Ok(VBool(|ns| > 0))
    case Table(_, _) => Err(NotModelled("the truth value of an array"))
    case Obj(_) => Ok(VBool(true))
    case Ref(_) => Ok(VBool(true))
  }

  /** `dict(v)`: a copy of a dictionary; the empty string gives an empty
      dictionary, any other string does not split into pairs. */
  function DictOf(v: Value): (r: Result<PyVal>)
    ensures (v.Attrib? || v.IntMap?) ==> r == Ok(VValue(v))
    ensures v.Text? && v.text.Some? ==> (r.Ok? <==> v.text.value == "")
    ensures v.Text? && v.text.None? ==> r.Err? && r.error.TypeError?
  {
    match v
    case Attrib(_) => Ok(VValue(v))
    case IntMap(_) => Ok(VValue(v))
    case Text(Some(s)) =>
      if s == "" then Ok(VValue(Attrib([])))
      else Err(ValueError("dictionary update sequence element #0 has length 1; 2 is required"))
    case Text(None) => Err(TypeError("'NoneType' object is not iterable"))
    case Num(_) => Err(TypeError("'int' object is not iterable"))
    case _ => Err(NotModelled("dict() of a list or an object"))
  }

  /** `func(v)` for a declared type constructor among dict, int, str, float
      and bool. */
  function Coerce(f: FieldKind, v: Value, codec: FloatCodec): (r: Result<PyVal>)
    requires Converts(f)
  {
    if f.Int? then IntOf(v)
    else if f.Float? then FloatOf(v, codec)
    else if f.Str? then StrOf(v)
    else if f.Bool? then BoolOf(v)
    else DictOf(v)
  }

  // ---------------------------------------------------------------------
  // __getitem__

  /** The first captured subtree with the given tag. */
  function FirstTagged(other: seq<Element>, name: string): (r: Option<Element>)
    ensures r.Some? <==> exists i :: 0 <= i < |other| && other[i].tag == name
    ensures r.Some? ==> exists i :: 0 <= i < |other| && other[i] == r.value && r.value.tag == name &&
                          forall j :: 0 <= j < i ==> other[j].tag != name
  {
    if |other| == 0 then None
    else if other[0].tag == name then Some(other[0])
    else
      var r := FirstTagged(other[1..], name);
      assert forall i :: 0 <= i < |other[1..]| ==> other[1..][i] == other[i + 1];
      if r.Some? then
        var i :| 0 <= i < |other[1..]| && other[1..][i] == r.value && r.value.tag == name &&
                 forall j :: 0 <= j < i ==> other[1..][j].tag != name;
        assert other[i + 1] == r.value;
        assert forall j :: 0 <= j < i + 1 ==> other[j].tag != name by {
          forall j | 0 <= j < i + 1 ensures other[j].tag != name {
            if j > 0 { assert other[j] == other[1..][j - 1]; }
          }
        }
        r
      else r
  }

  /** `BasePropertiesClass.__getitem__` on the fields of a record of kind `k`:
      a stored field first (converted when its declared type is one of the
      five constructors), then a declared field that is absent (None), then a
      captured subtree with that tag, and otherwise an error. */
  function Lookup(k: Kind, data: Fields, other: seq<Element>, name: string, codec: FloatCodec): (r: Result<PyVal>)
    ensures Assoc.HasKey(data, name) ==>
      var v := Assoc.Get(data, name).value;
      var ty := TypeOf(ParameterTypes(k), name);
      r == if ty.Some? && Converts(ty.value) then Coerce(ty.value, v, codec) else Ok(VValue(v))
    ensures !Assoc.HasKey(data, name) ==> (r == Ok(VNone) <==> name in ParameterTypes(k))
    ensures !Assoc.HasKey(data, name) && name !in ParameterTypes(k) ==>
      (r.Ok? <==> exists i :: 0 <= i < |other| && other[i].tag == name) &&
      (r.Ok? ==> r.value.VElem? && r.value.e in other && r.value.e.tag == name) &&
      (r.Err? ==> r.error.ValueError?)
  {
    var t := ParameterTypes(k);
    match Assoc.Get(data, name)
    case Some(v) =>
      var ty := TypeOf(t, name);
      if ty.Some? && Converts(ty.value) then Coerce(ty.value, v, codec) else Ok(VValue(v))
    case None =>
      if name in t then Ok(VNone)
      else
        match FirstTagged(other, name)
        case Some(e) => Ok(VElem(e))
        case None => Err(ValueError("Property named \"" + name + "\" not defined in the file, neither handled by PyGeoStudio."))
  }

  /** `record[name]`. A Function answers FunctionParameter and FunctionType
      from its parsed descriptor, not from `data`; Color and
      DatasetParameters objects are not subscriptable. */
  function GetItem(r: Record, name: string, codec: FloatCodec): (res: Result<PyVal>)
    ensures r.FunRec? && name == "FunctionParameter" ==> res == Ok(VValue(Attrib(r.funOptions)))
    ensures r.FunRec? && name == "FunctionType" ==> res == Ok(VStr(r.funType))
    ensures r.ColorRec? || r.ParamsRec? ==> res.Err? && res.error.TypeError?
  {
    match r
    case Props(k, data, other) => Lookup(k, data, other, name, codec)
    case FunRec(data, other, funType, opts) =>
      if name == "FunctionParameter" then Ok(VValue(Attrib(opts)))
      else if name == "FunctionType" then Ok(VStr(funType))
      else Lookup(Function, data, other, name, codec)
    case _ => Err(TypeError("object is not subscriptable"))
  }

  // ---------------------------------------------------------------------
  // __setitem__

  /** `True` and `False` become the strings the file format uses. */
  function Normalize(arg: PyArg): (r: PyArg)
    ensures !r.PBool?
    ensures !arg.PBool? ==> r == arg
  {
    match arg
    case PBool(b) => PStr(if b then "true" else "false")
    case _ => arg
  }

  /** `str(val)` of a setter argument. */
  function PyStr(arg: PyArg, codec: FloatCodec): (r: Result<string>)
    ensures arg.PStr? ==> r == Ok(arg.s)
    ensures arg.PNone? ==> r == Ok("None")
    ensures r.Ok? <==> !arg.PObj?
  {
    match arg
    case PBool(b) => Ok(if b then "True" else "False")
    case PInt(i) => Ok(Text.IntStr(i))
    case PFloat(x) => Ok(codec.show(x))
    case PStr(s) => Ok(s)
    case PNone => Ok("None")
    case PObj(_) => Err(NotModelled("str() of an object"))
  }

  /** A setter argument stored without conversion (a `my_data` field). */
  function Raw(arg: PyArg): (r: Result<Value>)
    ensures arg.PStr? ==> r == Ok(Text(Some(arg.s)))
    ensures arg.PInt? ==> r == Ok(Num(arg.i))
    ensures arg.PObj? ==> r == Ok(arg.v)
    ensures r.Ok? <==> !arg.PFloat?
  {
    match arg
    case PBool(b) => Ok(Text(Some(if b then "true" else "false")))
    case PInt(i) => Ok(Num(i))
    case PFloat(_) => Err(NotModelled("a float kept as a float"))
    case PStr(s) => Ok(Text(Some(s)))
    case PNone => Ok(Text(None))
    case PObj(v) => Ok(v)
  }

  /** The new `data` after `record[name] = arg` on a record of kind `k`:
      `my_data` fields take the value as it is; any other field takes its
      string form, provided the name is already stored or declared. */
  function Assign(k: Kind, data: Fields, name: string, arg: PyArg, codec: FloatCodec): (r: Result<Fields>)
    ensures name !in MyData(k) && !Assoc.HasKey(data, name) && name !in ParameterTypes(k) ==>
      r.Err? && r.error.ValueError?
    ensures r.Ok? ==> forall f :: f != name ==> Assoc.Get(r.value, f) == Assoc.Get(data, f)
    ensures r.Ok? && name !in MyData(k) ==> Assoc.Get(r.value, name).Some? && Assoc.Get(r.value, name).value.Text?
    ensures r.Ok? && name in MyData(k) ==>
      Assoc.Get(r.value, name).Some? && Raw(Normalize(arg)) == Ok(Assoc.Get(r.value, name).value)
  {
    var a := Normalize(arg);
    if name in MyData(k) then
      match Raw(a)
      case Err(err) => Err(err)
      case Ok(v) => Ok(Assoc.Put(data, name, v))
    else if !Assoc.HasKey(data, name) && name !in ParameterTypes(k) then
      Err(ValueError("Property " + name + " not defined in PyGeoStudio."))
    else
      match PyStr(a, codec)
      case Err(err) => Err(err)
      case Ok(s) => Ok(Assoc.Put(data, name, Text(Some(s))))
  }

  /** `record[name] = arg`. */
  function SetItem(r: Record, name: string, arg: PyArg, codec: FloatCodec): (res: Result<Record>)
    ensures res.Ok? ==> (r.Props? || r.FunRec?) && (res.value.Props? || res.value.FunRec?) &&
                        res.value == r.(data := res.value.data)
    ensures r.ColorRec? || r.ParamsRec? ==> res.Err? && res.error.TypeError?
  {
    match r
    case Props(k, data, other) =>
      (match Assign(k, data, name, arg, codec)
       case Err(err) => Err(err)
       case Ok(d) => Ok(Props(k, d, other)))
    case FunRec(data, other, funType, opts) =>
      (match Assign(Function, data, name, arg, codec)
       case Err(err) => Err(err)
       case Ok(d) => Ok(FunRec(d, other, funType, opts)))
    case _ => Err(TypeError("object does not support item assignment"))
  }
}

/** What the typed accessors promise, and where they surprise. */
module AccessProofs {
  import opened Wrappers
  import opened Xml
  import opened Schema
  import opened Values
  import opened Access
  import Assoc
  import Text

  /** A string field reads back the string it was set to. */
  lemma SetThenGetStr(k: Kind, data: Fields, other: seq<Element>, name: string, s: string, codec: FloatCodec)
    requires name !in MyData(k) && TypeOf(ParameterTypes(k), name) == Some(Str)
    ensures SetItem(Props(k, data, other), name, PStr(s), codec).Ok?
    ensures GetItem(SetItem(Props(k, data, other), name, PStr(s), codec).value, name, codec) == Ok(VStr(s))
  {
  }

  /** An integer field reads back the integer it was set to: `int(str(i))`. */
  lemma SetThenGetInt(k: Kind, data: Fields, other: seq<Element>, name: string, i: int, codec: FloatCodec)
    requires name !in MyData(k) && TypeOf(ParameterTypes(k), name) == Some(Int)
    ensures SetItem(Props(k, data, other), name, PInt(i), codec).Ok?
    ensures GetItem(SetItem(Props(k, data, other), name, PInt(i), codec).value, name, codec) == Ok(VInt(i))
  {
    Text.IntStrRoundTrip(i);
  }

  /** Setting a boolean field to False stores "false", and `bool("false")`
      is true: the field then reads as True. */
  lemma SetFalseReadsTrue(k: Kind, data: Fields, other: seq<Element>, name: string, codec: FloatCodec)
    requires name !in MyData(k) && TypeOf(ParameterTypes(k), name) == Some(Bool)
    ensures SetItem(Props(k, data, other), name, PBool(false), codec).Ok?
    ensures GetItem(SetItem(Props(k, data, other), name, PBool(false), codec).value, name, codec) == Ok(VBool(true))
  {
  }

  /** An integer field whose stored text is the decimal form of `i` reads
      back as `i`. */
  lemma IntFieldReads(k: Kind, data: Fields, other: seq<Element>, name: string, i: int, codec: FloatCodec)
    requires TypeOf(ParameterTypes(k), name) == Some(Int) && Assoc.Get(data, name) == Some(Text(Some(Text.IntStr(i))))
    ensures GetItem(Props(k, data, other), name, codec) == Ok(VInt(i))
  {
    Text.IntStrRoundTrip(i);
  }

  /** Only the empty text reads as False from a boolean field. */
  lemma BoolFieldTruth(k: Kind, data: Fields, other: seq<Element>, name: string, s: string, codec: FloatCodec)
    requires TypeOf(ParameterTypes(k), name) == Some(Bool) && Assoc.Get(data, name) == Some(Text(Some(s)))
    ensures GetItem(Props(k, data, other), name, codec) == Ok(VBool(s != ""))
  {
  }

  /** A name that is neither stored, nor declared, nor `my_data` cannot be set. */
  lemma UnknownNameRejected(k: Kind, data: Fields, other: seq<Element>, name: string, arg: PyArg, codec: FloatCodec)
    requires name !in MyData(k) && !Assoc.HasKey(data, name) && name !in ParameterTypes(k)
    ensures SetItem(Props(k, data, other), name, arg, codec).Err?
    ensures SetItem(Props(k, data, other), name, arg, codec).error.ValueError?
  {
  }

  /** A `my_data` field keeps the Python value itself (True and False
      aside), and reading it back from a kind that gives it no converting
      type returns that value unconverted. */
  lemma MyDataKeptRaw(k: Kind, data: Fields, other: seq<Element>, name: string, arg: PyArg, codec: FloatCodec)
    requires name in MyData(k) && TypeOf(ParameterTypes(k), name).None?
    requires !arg.PFloat? && !arg.PBool?
    ensures SetItem(Props(k, data, other), name, arg, codec).Ok?
    ensures GetItem(SetItem(Props(k, data, other), name, arg, codec).value, name, codec) == Ok(VValue(Raw(arg).value))
  {
  }

  /** A declared field that the file did not provide reads as None. */
  lemma DeclaredAbsentIsNone(k: Kind, data: Fields, other: seq<Element>, name: string, codec: FloatCodec)
    requires !Assoc.HasKey(data, name) && name in ParameterTypes(k)
    ensures GetItem(Props(k, data, other), name, codec) == Ok(VNone)
  {
  }

  /** An undeclared, unstored name reads as the first captured subtree with
      that tag; an unknown name fails. */
  lemma CapturedLookup(k: Kind, data: Fields, other: seq<Element>, name: string, codec: FloatCodec, i: nat)
    requires !Assoc.HasKey(data, name) && name !in ParameterTypes(k)
    requires i < |other| && other[i].tag == name && forall j :: 0 <= j < i ==> other[j].tag != name
    ensures GetItem(Props(k, data, other), name, codec) == Ok(VElem(other[i]))
  {
    var r := FirstTagged(other, name);
    var i' :| 0 <= i' < |other| && other[i'] == r.value && r.value.tag == name &&
              forall j :: 0 <= j < i' ==> other[j].tag != name;
    assert i' == i;
  }

  /** Assigning a Function's FunctionParameter changes `data` but not what
      `function["FunctionParameter"]` returns, which comes from the parsed
      descriptor. */
  lemma FunctionParameterShadowed(data: Fields, other: seq<Element>, funType: string, opts: Attrs, arg: PyArg, codec: FloatCodec)
    requires !arg.PFloat?
    ensures SetItem(FunRec(data, other, funType, opts), "FunctionParameter", arg, codec).Ok?
    ensures GetItem(SetItem(FunRec(data, other, funType, opts), "FunctionParameter", arg, codec).value, "FunctionParameter", codec)
         == Ok(VValue(Attrib(opts)))
  {
  }
}
