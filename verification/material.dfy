/** `MaterialHydraulicFunction`: a record stored entirely as the attributes
    of one element instead of as child elements. The other material kinds
    (`Material`, `MaterialStressStrain`) are plain schema tables handled by
    the generic marshaller. */
module Materials {
  import opened Wrappers
  import opened Xml
  import opened Values
  import opened Schema
  import Assoc

  /** An attribute as a stored string value. */
  function AsField(a: (string, string)): (string, Value)
  {
    (a.0, Text(Some(a.1)))
  }

  /** The attributes as stored values, in order. */
  function AttrFields(attrs: Attrs): Fields
  {
    seq(|attrs|, i requires 0 <= i < |attrs| => AsField(attrs[i]))
  }

  /** `read`: `data` becomes `dict(et.attrib)`; `other_elem` stays empty and
      `__initialize__` is not called. */
  function ReadHydraulic(e: Element): Record
  {
    Props(MaterialHydraulicFunction, Assoc.PutAll([], AttrFields(e.attrs)), [])
  }

  /** `__write__`: every entry except the `my_data` links `KFn`/`VolWCFn`
      becomes an attribute. A value that is not a string cannot be
      serialised. */
  function WriteHydraulic(data: Fields): (r: Result<Attrs>)
    ensures r.Ok? ==> forall i :: 0 <= i < |r.value| ==> r.value[i].0 !in MyData(MaterialHydraulicFunction)
  {
    if |data| == 0 then Ok([])
    else
      match WriteHydraulic(data[1..])
      case Err(e) => Err(e)
      case Ok(rest) =>
        if data[0].0 in MyData(MaterialHydraulicFunction) then Ok(rest)
        else
          match data[0].1
          case Text(Some(s)) => Ok([(data[0].0, s)] + rest)
          case _ => Err(TypeError("cannot serialize attribute " + data[0].0))
  }

  lemma {:induction false} WriteAttrFields(attrs: Attrs)
    requires forall i :: 0 <= i < |attrs| ==> attrs[i].0 !in MyData(MaterialHydraulicFunction)
    ensures WriteHydraulic(AttrFields(attrs)) == Ok(attrs)
  {
    var fs := AttrFields(attrs);
    if |attrs| > 0 {
      WriteAttrFields(attrs[1..]);
      assert fs[1..] == AttrFields(attrs[1..]);
      assert [attrs[0]] + attrs[1..] == attrs;
    }
  }

  /** The attributes of a hydraulic-function element round-trip. */
  lemma HydraulicRoundTrip(e: Element)
    requires Assoc.Unique(e.attrs)
    requires !Assoc.HasKey(e.attrs, "KFn") && !Assoc.HasKey(e.attrs, "VolWCFn")
    ensures ReadHydraulic(e).Props?
    ensures WriteHydraulic(ReadHydraulic(e).data) == Ok(e.attrs)
  {
    AttrFieldsUnique(e.attrs);
    assert [] + AttrFields(e.attrs) == AttrFields(e.attrs);
    Assoc.PutAllUnique([], AttrFields(e.attrs));
    NoLinkAttrs(e.attrs);
    WriteAttrFields(e.attrs);
  }

  lemma AttrFieldsUnique(attrs: Attrs)
    requires Assoc.Unique(attrs)
    ensures Assoc.Unique(AttrFields(attrs))
  {
    var fs := AttrFields(attrs);
    forall i, j | 0 <= i < j < |fs| ensures fs[i].0 != fs[j].0 {
      assert fs[i].0 == attrs[i].0 && fs[j].0 == attrs[j].0;
    }
  }

  lemma NoLinkAttrs(attrs: Attrs)
    requires !Assoc.HasKey(attrs, "KFn") && !Assoc.HasKey(attrs, "VolWCFn")
    ensures forall i :: 0 <= i < |attrs| ==> attrs[i].0 !in MyData(MaterialHydraulicFunction)
  {
    forall i | 0 <= i < |attrs| ensures attrs[i].0 !in MyData(MaterialHydraulicFunction) {
      assert MyData(MaterialHydraulicFunction) == {"KFn", "VolWCFn"};
      if attrs[i].0 == "KFn" { assert Assoc.HasKey(attrs, "KFn"); }
      if attrs[i].0 == "VolWCFn" { assert Assoc.HasKey(attrs, "VolWCFn"); }
    }
  }

  /** Attaching a function object under a `my_data` name never changes what
      is written. */
  lemma {:induction false} LinkNeverWritten(data: Fields, k: string, v: Value)
    requires k in MyData(MaterialHydraulicFunction)
    ensures WriteHydraulic(Assoc.Put(data, k, v)) == WriteHydraulic(data)
  {
    if |data| == 0 {
      assert Assoc.Put(data, k, v) == [(k, v)];
      assert WriteHydraulic([(k, v)]) == WriteHydraulic([(k, v)][1..]);
    } else if data[0].0 == k {
      assert Assoc.Put(data, k, v)[1..] == data[1..];
    } else {
      LinkNeverWritten(data[1..], k, v);
      assert Assoc.Put(data, k, v)[1..] == Assoc.Put(data[1..], k, v);
    }
  }
}
