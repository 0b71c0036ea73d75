/** The in-memory side of the marshaller: what a record's `data` dictionary
    can hold, the records themselves, and the Python values that cross the
    `__getitem__`/`__setitem__` boundary. */
module Values {
  import opened Wrappers
  import opened Xml
  import opened Schema
  import Assoc

  /** A value stored in a record's `data`. */
  datatype Value =
    | Text(text: Option<string>)                 // a str, or None for an element without text
    | Num(n: int)                                // a Python int stored without conversion
    | Attrib(attrs: Attrs)                       // a dict of strings (an element's attributes)
    | Pairs(items: seq<(string, Attrs)>)         // a list of [tag, attrib] pairs
    | AttribList(dicts: seq<Attrs>)              // a list of dicts (time steps)
    | IntMap(entries: seq<(string, int)>)        // a dict from region key to int (contexts)
    | Table(width: nat, rows: seq<seq<real>>)    // a 2-D numpy array; width 0 also covers a 1-D empty array
    | Names(names: seq<string>)                  // a list of strings (a function's Types)
    | Obj(rec: Record)                           // a nested package object
    | Ref(index: nat)                            // a reference to a record of the document, by position

  /** Python's `len` of a value: None for an int, None and the package
      objects, which have no length. */
  function Length(v: Value): Option<nat>
  {
    match v
    case Text(t) => if t.Some? then Some(|t.value|) else None
    case Attrib(a) => Some(|a|)
    case Pairs(ps) => Some(|ps|)
    case AttribList(ds) => Some(|ds|)
    case IntMap(m) => Some(|m|)
    case Table(_, rows) => Some(|rows|)
    case Names(ns) => Some(|ns|)
    case _ => None
  }

  /** A record's `data`: field name to value, in insertion order. */
  type Fields = seq<(string, Value)>

  /** A package object built from an element.
      - `Props`: a property record; `other` holds the `other_elem` subtrees.
      - `FunRec`: a Function, with the descriptor parsed by `__initialize__`.
      - `ColorRec`: a Color's `rgb` list.
      - `ParamsRec`: a DatasetParameters' `params` list. */
  datatype Record =
    | Props(kind: Kind, data: Fields, other: seq<Element>)
    | FunRec(data: Fields, other: seq<Element>, funType: string, funOptions: Attrs)
    | ColorRec(rgb: seq<int>)
    | ParamsRec(params: seq<Option<string>>)
  {
    /** The kind whose schema governs this record. */
    function KindOf(): Kind
    {
      match this
      case Props(k, _, _) => k
      case FunRec(_, _, _, _) => Function
      case ColorRec(_) => Color
      case ParamsRec(_) => DatasetParameters
    }
  }

  /** `float(s)` and `str(x)` for floats. Floating-point text conversion is
      not modelled: every operation that needs it takes a codec. */
  datatype FloatCodec = FloatCodec(parse: string -> Option<real>, show: real -> string)

  /** The text written for `x` parses back to `x`: Python's
      `float(str(x)) == x` for every finite float. Round trips require it
      only of the values they write. */
  predicate RoundTrips(c: FloatCodec, x: real)
  {
    c.parse(c.show(x)) == Some(x)
  }

  /** A Python value passed to `__setitem__`. */
  datatype PyArg = PBool(b: bool) | PInt(i: int) | PFloat(x: real) | PStr(s: string) | PNone | PObj(v: Value)

  /** A Python value returned by `__getitem__`. */
  datatype PyVal =
    | VNone
    | VInt(i: int)
    | VFloat(x: real)
    | VStr(s: string)
    | VBool(b: bool)
    | VValue(v: Value)
    | VElem(e: Element)

  // ---------------------------------------------------------------------
  // Sizes, the termination measure of the recursive writer

  function ValueSize(v: Value): nat
    decreases v, 0, 0
  {
    match v
    case Obj(r) => 1 + RecordSize(r)
    case _ => 1
  }

  function RecordSize(r: Record): nat
    decreases r, 1, 0
  {
    match r
    case Props(_, data, _) => 1 + DataSize(r, 0)
    case FunRec(data, _, _, _) => 1 + DataSize(r, 0)
    case _ => 1
  }

  function DataSize(r: Record, i: nat): nat
    requires r.Props? || r.FunRec?
    requires i <= |r.data|
    decreases r, 0, |r.data| - i
  {
    if i == |r.data| then 0 else ValueSize(r.data[i].1) + DataSize(r, i + 1)
  }

  /** The total size of the values of a field list. */
  function FieldsSize(data: Fields): nat
  {
    if |data| == 0 then 0 else ValueSize(data[0].1) + FieldsSize(data[1..])
  }

  lemma {:induction false} DataSizeIsFieldsSize(r: Record, i: nat)
    requires r.Props? || r.FunRec?
    requires i <= |r.data|
    ensures DataSize(r, i) == FieldsSize(r.data[i..])
    decreases |r.data| - i
  {
    if i < |r.data| {
      DataSizeIsFieldsSize(r, i + 1);
      assert r.data[i..][1..] == r.data[i + 1..];
    }
  }

  /** A record is larger than the fields it holds. */
  lemma RecordSizeFields(r: Record)
    requires r.Props? || r.FunRec?
    ensures RecordSize(r) == 1 + FieldsSize(r.data)
  {
    DataSizeIsFieldsSize(r, 0);
    assert r.data[0..] == r.data;
  }

  /** Each value is no larger than the field list holding it. */
  lemma {:induction false} FieldsSizeMember(data: Fields, i: nat)
    requires i < |data|
    ensures ValueSize(data[i].1) <= FieldsSize(data)
  {
    if i > 0 {
      FieldsSizeMember(data[1..], i - 1);
    }
  }

  /** Replacing a value by one of the same size keeps the size of the fields. */
  lemma {:induction false} PutKeepsSize(data: Fields, k: string, v: Value)
    requires Assoc.Get(data, k).Some? && ValueSize(Assoc.Get(data, k).value) == ValueSize(v)
    ensures FieldsSize(Assoc.Put(data, k, v)) == FieldsSize(data)
  {
    if data[0].0 != k {
      PutKeepsSize(data[1..], k, v);
      assert Assoc.Put(data, k, v)[1..] == Assoc.Put(data[1..], k, v);
    } else {
      assert Assoc.Put(data, k, v)[1..] == data[1..];
    }
  }
}
