/** The schema-driven marshaller shared by every property record
    (`BasePropertiesClass`): reading the children of an element into the
    `data` dictionary and the `other_elem` list, writing them back, and the
    typed `__getitem__`/`__setitem__` access. The specialised kinds plug in
    through `ReadRecord` and `WriteRecord`. */
module Marshal {
  import opened Wrappers
  import opened Xml
  import opened Schema
  import opened Values
  import Assoc
  import Text
  import Colors
  import Materials
  import TimeSteps
  import Contexts
  import Datasets
  import Functions

  // ---------------------------------------------------------------------
  // Reading

  /** The rule of `read` that handles a child, in priority order. */
  datatype Rule = Skip | Capture | AsDict | AsList | AsNested(kind: Kind) | AsText | Invalid

  function RuleFor(t: Table, e: Element): Rule
  {
    var ty := TypeOf(t, e.tag);
    if IsMissing(e) then Skip                                   // 1
    else if |e.children| > 0 && ty.None? then Capture           // 2
    else if ty == Some(Dict) then AsDict                        // 3
    else if ty == Some(List) then AsList                        // 4
    else if ty.Some? && ty.value.Nested? then AsNested(ty.value.kind)  // 5
    else if IsLeaf(e) then AsText                               // 6
    else Invalid                                                // a declared scalar with children
  }

  /** `[d.tag, d.attrib]` for every child, in document order. */
  function ChildPairs(e: Element): (r: seq<(string, Attrs)>)
    ensures |r| == |e.children|
    ensures forall i :: 0 <= i < |r| ==> r[i] == (e.children[i].tag, e.children[i].attrs)
  {
    seq(|e.children|, i requires 0 <= i < |e.children| => (e.children[i].tag, e.children[i].attrs))
  }

  /** The constructor of a record kind applied to an element. */
  function ReadRecord(k: Kind, e: Element, codec: FloatCodec): (r: Result<Record>)
    ensures r.Ok? ==> r.value.KindOf() == k
    ensures r.Ok? && k == Function ==> r.value.FunRec?
    ensures r.Ok? && k == Reinforcement ==>
      Assoc.Get(r.value.data, "Type").Some? && Assoc.Get(r.value.data, "Type") != Some(Text(None))
    decreases Size(e), 1
  {
    match k
    case Color => Colors.FromElement(e)
    case DatasetParameters => Ok(Datasets.ReadParams(e))
    case MaterialHydraulicFunction => Ok(Materials.ReadHydraulic(e))
    case TimeIncrements => TimeSteps.Read(e)
    case Context =>
      (match Contexts.Read(e)
       case Err(err) => Err(err)
       case Ok(p) => Ok(p.0))
    case Results => Err(TypeError("Results.__init__() missing 1 required positional argument: 'analysis'"))
    case _ =>
      match ReadFields(ParameterTypes(k), e.children, [], [], codec)
      case Err(err) => Err(err)
      case Ok(p) => Initialize(k, p.0, p.1, codec)
  }

  /** `read`: the children in document order, each handled by its rule. */
  function ReadFields(t: Table, cs: seq<Element>, data: Fields, other: seq<Element>, codec: FloatCodec): Result<(Fields, seq<Element>)>
    decreases SizeAll(cs), 2
  {
    if |cs| == 0 then Ok((data, other))
    else
      var e := cs[0];
      assert SizeAll(cs) == Size(e) + SizeAll(cs[1..]);
      match RuleFor(t, e)
      case Skip => ReadFields(t, cs[1..], data, other, codec)
      case Capture => ReadFields(t, cs[1..], data, other + [e], codec)
      case AsDict => ReadFields(t, cs[1..], Assoc.Put(data, e.tag, Attrib(e.attrs)), other, codec)
      case AsList => ReadFields(t, cs[1..], Assoc.Put(data, e.tag, Pairs(ChildPairs(e))), other, codec)
      case AsNested(k) =>
        (match ReadRecord(k, e, codec)
         case Err(err) => Err(err)
         case Ok(r) => ReadFields(t, cs[1..], Assoc.Put(data, e.tag, Obj(r)), other, codec))
      case AsText => ReadFields(t, cs[1..], Assoc.Put(data, e.tag, Text(e.text)), other, codec)
      case Invalid => Err(ValueError("You are not supposed to be here..."))
  }

  /** `__initialize__`, run after every read and every write. */
  function Initialize(k: Kind, data: Fields, other: seq<Element>, codec: FloatCodec): (r: Result<Record>)
    ensures k != Function ==> r == Ok(Props(k, InitFields(k, data), other))
  {
    match k
    case Function => Functions.Init(data, other, codec)
    case _ => Ok(Props(k, InitFields(k, data), other))
  }

  /** The field changes `__initialize__` makes: a reinforcement whose Type
      is absent or None becomes an anchor. */
  function InitFields(k: Kind, data: Fields): (r: Fields)
    ensures k == Reinforcement ==> Assoc.Get(r, "Type").Some? && Assoc.Get(r, "Type") != Some(Text(None))
    ensures k == Reinforcement && Assoc.Get(data, "Type").Some? && Assoc.Get(data, "Type") != Some(Text(None)) ==> r == data
    ensures k != Reinforcement ==> r == data
    ensures forall f :: f != "Type" ==> Assoc.Get(r, f) == Assoc.Get(data, f)
  {
    if k == Reinforcement && (Assoc.Get(data, "Type").None? || Assoc.Get(data, "Type") == Some(Text(None))) then
      Assoc.Put(data, "Type", Text(Some("Anchors")))
    else data
  }

  // ---------------------------------------------------------------------
  // Writing

  /** `val.__write__(sub)` for a record stored under `tag`: the element
      written and the record as it is left afterwards (the hooks run again). */
  function WriteRecord(r: Record, tag: string, codec: FloatCodec): (res: Result<(Element, Record)>)
    ensures res.Ok? ==> res.value.0.tag == tag && res.value.1.KindOf() == r.KindOf()
    decreases RecordSize(r)
  {
    match r
    case ColorRec(rgb) =>
      (match Colors.WriteText(rgb)
       case Err(err) => Err(err)
       case Ok(text) => Ok((Element(tag, [], Some(text), []), r)))
    case ParamsRec(ps) => Ok((Datasets.WriteParams(tag, ps), r))
    case FunRec(data, other, _, _) =>
      RecordSizeFields(r);
      (match Functions.Deinit(data, codec)
       case Err(err) => Err(err)
       case Ok(data1) =>
         match WriteFields(Function, data1, codec)
         case Err(err) => Err(err)
         case Ok(w) =>
           match Functions.Init(w.1, other, codec)
           case Err(err) => Err(err)
           case Ok(r1) => Ok((Element(tag, [], None, w.0 + other), r1)))
    case Props(k, data, other) =>
      if k == MaterialHydraulicFunction then
        match Materials.WriteHydraulic(data)
        case Err(err) => Err(err)
        case Ok(attrs) => Ok((Element(tag, attrs, None, []), r))
      else if k == TimeIncrements then
        match TimeSteps.WriteSteps(data)
        case Err(err) => Err(err)
        case Ok(cs) => Ok((Element(tag, [], None, cs), r))
      else if k == Context then
        match Contexts.WriteContext(data)
        case Err(err) => Err(err)
        case Ok(cs) => Ok((Element(tag, [], None, cs), r))
      else if k == Results then Err(NotModelled("writing results"))
      else
        RecordSizeFields(r);
        match WriteFields(k, data, codec)
        case Err(err) => Err(err)
        case Ok(w) =>
          match Initialize(k, w.1, other, codec)
          case Err(err) => Err(err)
          case Ok(r1) => Ok((Element(tag, [], None, w.0 + other), r1))
  }

  /** The element written for a field whose value is not a nested record:
      a dictionary becomes the attributes, a list of pairs a `Len`-prefixed
      parent, a string the text. */
  function WriteValue(tag: string, v: Value): (r: Result<Element>)
    ensures r.Ok? ==> r.value.tag == tag
    ensures r.Ok? <==> v.Attrib? || v.Pairs? || (v.Text? && v.text.Some?)
  {
    match v
    case Attrib(a) => Ok(Element(tag, a, None, []))
    case Pairs(ps) => Ok(Counted(tag, PairElements(ps)))
    case Text(Some(s)) => Ok(Leaf(tag, Some(s)))
    case IntMap(_) => Err(TypeError("cannot serialize an integer attribute"))
    case Names(_) => Err(NotModelled("a list that is not made of [tag, attrib] pairs"))
    case AttribList(_) => Err(NotModelled("a list that is not made of [tag, attrib] pairs"))
    case _ => Err(ValueError("Can't write property " + tag + " because value is not a string"))
  }

  /** The tags of some elements, in order. */
  function Tags(es: seq<Element>): seq<string>
  {
    seq(|es|, i requires 0 <= i < |es| => es[i].tag)
  }

  lemma TagsAppend(a: seq<Element>, b: seq<Element>)
    ensures Tags(a + b) == Tags(a) + Tags(b)
  {
  }

  lemma KeysCons(data: Fields, v: Value, rest: Fields)
    requires |data| > 0
    ensures Assoc.Keys([(data[0].0, v)] + rest) == [data[0].0] + Assoc.Keys(rest)
    ensures Assoc.Keys(data) == [data[0].0] + Assoc.Keys(data[1..])
  {
  }

  /** The keys of `data` that are not `my_data`, in order: the fields
      `__write__` emits. */
  function WrittenKeys(k: Kind, data: Fields): seq<string>
  {
    if |data| == 0 then []
    else (if data[0].0 in MyData(k) then [] else [data[0].0]) + WrittenKeys(k, data[1..])
  }

  /** One element per `[tag, attrib]` pair. */
  function PairElements(ps: seq<(string, Attrs)>): (r: seq<Element>)
    ensures |r| == |ps|
    ensures forall i :: 0 <= i < |ps| ==> r[i] == Element(ps[i].0, ps[i].1, None, [])
  {
    seq(|ps|, i requires 0 <= i < |ps| => Element(ps[i].0, ps[i].1, None, []))
  }

  /** The loop of `__write__`: the elements for the fields in `data` order,
      `my_data` fields skipped, and `data` with every nested record as its
      own write left it. */
  function WriteFields(k: Kind, data: Fields, codec: FloatCodec): (res: Result<(seq<Element>, Fields)>)
    ensures res.Ok? ==> Assoc.Keys(res.value.1) == Assoc.Keys(data)
    ensures res.Ok? ==> Tags(res.value.0) == WrittenKeys(k, data)
    decreases FieldsSize(data)
  {
    if |data| == 0 then Ok(([], []))
    else
      var (tag, v) := data[0];
      var ty := TypeOf(ParameterTypes(k), tag);
      var head: Result<(seq<Element>, Value)> :=
        if tag in MyData(k) then Ok(([], v))
        else if ty.Some? && ty.value.Nested? then
          (match v
           case Obj(rec) =>
             (match WriteRecord(rec, tag, codec)
              case Err(err) => Err(err)
              case Ok(w) => Ok(([w.0], Obj(w.1))))
           case _ => Err(AttributeError("__write__")))
        else
          (match WriteValue(tag, v)
           case Err(err) => Err(err)
           case Ok(e) => Ok(([e], v)));
      match head
      case Err(err) => Err(err)
      case Ok(h) =>
        match WriteFields(k, data[1..], codec)
        case Err(err) => Err(err)
        case Ok(rest) =>
          TagsAppend(h.0, rest.0);
          KeysCons(data, h.1, rest.1);
          Ok((h.0 + rest.0, [(tag, h.1)] + rest.1))
  }
}

/** Properties of the generic reader and writer. */
module MarshalProofs {
  import opened Wrappers
  import opened Xml
  import opened Schema
  import opened Values
  import opened Marshal
  import Assoc
  import Text
  import Seqs

  /** A list field written as `[tag, attrib]` children reads back as the
      same pairs, in the same order. */
  lemma PairsRoundTrip(tag: string, ps: seq<(string, Attrs)>)
    ensures ChildPairs(Counted(tag, PairElements(ps))) == ps
  {
  }

  /** The children rule 2 captures, in document order. */
  function Captured(t: Table, cs: seq<Element>): seq<Element>
  {
    if |cs| == 0 then []
    else (if RuleFor(t, cs[0]) == Capture then [cs[0]] else []) + Captured(t, cs[1..])
  }

  /** The child is stored in `data` under its tag (rules 3 to 6). */
  predicate Stores(t: Table, e: Element)
  {
    var r := RuleFor(t, e);
    r.AsDict? || r.AsList? || r.AsNested? || r.AsText?
  }

  predicate StoresTag(t: Table, cs: seq<Element>, k: string)
  {
    exists i :: 0 <= i < |cs| && Stores(t, cs[i]) && cs[i].tag == k
  }

  lemma StoresTagCons(t: Table, cs: seq<Element>, k: string)
    requires |cs| > 0
    ensures StoresTag(t, cs, k) <==> (Stores(t, cs[0]) && cs[0].tag == k) || StoresTag(t, cs[1..], k)
  {
    if StoresTag(t, cs[1..], k) {
      var i :| 0 <= i < |cs[1..]| && Stores(t, cs[1..][i]) && cs[1..][i].tag == k;
      assert cs[i + 1] == cs[1..][i];
    }
    if StoresTag(t, cs, k) && !(Stores(t, cs[0]) && cs[0].tag == k) {
      var i :| 0 <= i < |cs| && Stores(t, cs[i]) && cs[i].tag == k;
      assert cs[1..][i - 1] == cs[i];
    }
  }

  lemma PutHasKey(d: Fields, k: string, v: Value, k': string)
    ensures Assoc.HasKey(Assoc.Put(d, k, v), k') <==> Assoc.HasKey(d, k') || k' == k
  {
    if k' != k {
      assert Assoc.Get(Assoc.Put(d, k, v), k') == Assoc.Get(d, k');
    }
  }

  /** What a successful `read` leaves behind: `other_elem` gains exactly the
      captured children, in order; `data` gains exactly the tags of the
      stored children (so a Missing child never reaches either); no child
      hit the invalid branch; and no key appears twice. */
  lemma {:induction false} ReadFieldsShape(t: Table, cs: seq<Element>, d: Fields, o: seq<Element>, codec: FloatCodec)
    requires ReadFields(t, cs, d, o, codec).Ok?
    ensures ReadFields(t, cs, d, o, codec).value.1 == o + Captured(t, cs)
    ensures forall i :: 0 <= i < |cs| ==> RuleFor(t, cs[i]) != Invalid
    ensures forall k :: Assoc.HasKey(ReadFields(t, cs, d, o, codec).value.0, k) <==> Assoc.HasKey(d, k) || StoresTag(t, cs, k)
    ensures Assoc.Unique(d) ==> Assoc.Unique(ReadFields(t, cs, d, o, codec).value.0)
    decreases |cs|
  {
    if |cs| == 0 {
      assert o + [] == o;
    } else {
      var e := cs[0];
      var res := ReadFields(t, cs, d, o, codec).value;
      var d', o', v := ReadStep(t, cs, d, o, codec);
      ReadFieldsShape(t, cs[1..], d', o', codec);
      CapturedCons(t, cs, o);
      forall i | 0 <= i < |cs| ensures RuleFor(t, cs[i]) != Invalid {
        if i > 0 { assert cs[i] == cs[1..][i - 1]; }
      }
      forall k ensures Assoc.HasKey(res.0, k) <==> Assoc.HasKey(d, k) || StoresTag(t, cs, k) {
        StoresTagCons(t, cs, k);
        if Stores(t, e) {
          PutHasKey(d, e.tag, v, k);
        }
      }
      if Assoc.Unique(d) && Stores(t, e) {
        Assoc.PutUnique(d, e.tag, v);
      }
    }
  }

  lemma CapturedCons(t: Table, cs: seq<Element>, o: seq<Element>)
    requires |cs| > 0
    ensures o + Captured(t, cs) == (o + (if RuleFor(t, cs[0]) == Capture then [cs[0]] else [])) + Captured(t, cs[1..])
  {
    var h := if RuleFor(t, cs[0]) == Capture then [cs[0]] else [];
    assert Captured(t, cs) == h + Captured(t, cs[1..]);
    Seqs.AppendAssoc(o, h, Captured(t, cs[1..]));
  }

  /** One step of `read`: the accumulators after the first child. */
  lemma ReadStep(t: Table, cs: seq<Element>, d: Fields, o: seq<Element>, codec: FloatCodec)
    returns (d': Fields, o': seq<Element>, v: Value)
    requires |cs| > 0 && ReadFields(t, cs, d, o, codec).Ok?
    ensures RuleFor(t, cs[0]) != Invalid
    ensures ReadFields(t, cs, d, o, codec) == ReadFields(t, cs[1..], d', o', codec)
    ensures ReadFields(t, cs[1..], d', o', codec).Ok?
    ensures o' == o + (if RuleFor(t, cs[0]) == Capture then [cs[0]] else [])
    ensures Stores(t, cs[0]) ==> d' == Assoc.Put(d, cs[0].tag, v)
    ensures !Stores(t, cs[0]) ==> d' == d
  {
    var e := cs[0];
    v := Text(None);
    match RuleFor(t, e) {
      case Skip => d' := d; o' := o;
      case Capture => d' := d; o' := o + [e];
      case AsDict => v := Attrib(e.attrs); d' := Assoc.Put(d, e.tag, v); o' := o;
      case AsList => v := Pairs(ChildPairs(e)); d' := Assoc.Put(d, e.tag, v); o' := o;
      case AsNested(k) => v := Obj(ReadRecord(k, e, codec).value); d' := Assoc.Put(d, e.tag, v); o' := o;
      case AsText => v := Text(e.text); d' := Assoc.Put(d, e.tag, v); o' := o;
    }
  }

  /** Rule 1 wins: inserting a Missing-marked child anywhere changes
      nothing, whatever its tag, attributes or children. */
  lemma {:induction false} MissingChildIgnored(t: Table, cs1: seq<Element>, m: Element, cs2: seq<Element>, d: Fields, o: seq<Element>, codec: FloatCodec)
    requires IsMissing(m)
    ensures ReadFields(t, cs1 + [m] + cs2, d, o, codec) == ReadFields(t, cs1 + cs2, d, o, codec)
    decreases |cs1|
  {
    if |cs1| == 0 {
      assert cs1 + [m] + cs2 == [m] + cs2;
      assert ([m] + cs2)[1..] == cs2;
      assert cs1 + cs2 == cs2;
    } else {
      var e := cs1[0];
      assert (cs1 + [m] + cs2)[0] == e && (cs1 + cs2)[0] == e;
      assert (cs1 + [m] + cs2)[1..] == cs1[1..] + [m] + cs2;
      assert (cs1 + cs2)[1..] == cs1[1..] + cs2;
      match RuleFor(t, e) {
        case Skip => MissingChildIgnored(t, cs1[1..], m, cs2, d, o, codec);
        case Capture => MissingChildIgnored(t, cs1[1..], m, cs2, d, o + [e], codec);
        case AsDict => MissingChildIgnored(t, cs1[1..], m, cs2, Assoc.Put(d, e.tag, Attrib(e.attrs)), o, codec);
        case AsList => MissingChildIgnored(t, cs1[1..], m, cs2, Assoc.Put(d, e.tag, Pairs(ChildPairs(e))), o, codec);
        case AsNested(k) =>
          if ReadRecord(k, e, codec).Ok? {
            MissingChildIgnored(t, cs1[1..], m, cs2, Assoc.Put(d, e.tag, Obj(ReadRecord(k, e, codec).value)), o, codec);
          }
        case AsText => MissingChildIgnored(t, cs1[1..], m, cs2, Assoc.Put(d, e.tag, Text(e.text)), o, codec);
        case Invalid =>
      }
    }
  }

  // ---------------------------------------------------------------------
  // Round trip of the generic record

  /** A field the generic writer emits and the generic reader takes back
      unchanged: a string under an undeclared or scalar tag, a dictionary
      (without a Missing marker) under a `dict` tag, or a pair list under a
      `list` tag; never a `my_data` field. */
  predicate Carried(k: Kind, f: (string, Value))
  {
    var ty := TypeOf(ParameterTypes(k), f.0);
    f.0 !in MyData(k) &&
    match f.1
    case Text(Some(_)) => ty.None? || IsScalar(ty.value)
    case Attrib(a) => ty == Some(Dict) && Assoc.Get(a, "Missing") != Some("true")
    case Pairs(_) => ty == Some(List)
    case _ => false
  }

  /** Every field is carried. */
  predicate AllCarried(k: Kind, data: Fields)
  {
    forall i :: 0 <= i < |data| ==> Carried(k, data[i])
  }

  /** A subtree rule 2 captures. */
  predicate Opaque(t: Table, e: Element)
  {
    !IsMissing(e) && |e.children| > 0 && TypeOf(t, e.tag).None?
  }

  /** The elements written for carried fields. */
  function CarriedElements(k: Kind, data: Fields): (r: seq<Element>)
    requires AllCarried(k, data)
    ensures |r| == |data|
  {
    seq(|data|, i requires 0 <= i < |data| && Carried(k, data[i]) => WriteValue(data[i].0, data[i].1).value)
  }

  /** One carried field in front of fields already written. */
  lemma WriteCarriedHead(k: Kind, data: Fields, codec: FloatCodec, es: seq<Element>)
    requires |data| > 0 && Carried(k, data[0])
    requires WriteFields(k, data[1..], codec) == Ok((es, data[1..]))
    ensures WriteValue(data[0].0, data[0].1).Ok?
    ensures WriteFields(k, data, codec) == Ok(([WriteValue(data[0].0, data[0].1).value] + es, data))
  {
    assert [(data[0].0, data[0].1)] + data[1..] == data;
  }

  lemma {:induction false} WriteCarried(k: Kind, data: Fields, codec: FloatCodec)
    requires AllCarried(k, data)
    ensures WriteFields(k, data, codec) == Ok((CarriedElements(k, data), data))
    decreases |data|
  {
    if |data| > 0 {
      var es := CarriedElements(k, data);
      assert Carried(k, data[0]);
      CarriedElementsTail(k, data);
      WriteCarried(k, data[1..], codec);
      WriteCarriedHead(k, data, codec, es[1..]);
      assert es == [es[0]] + es[1..];
    }
  }

  lemma CarriedElementsTail(k: Kind, data: Fields)
    requires |data| > 0
    requires AllCarried(k, data)
    ensures Carried(k, data[0]) && AllCarried(k, data[1..])
    ensures CarriedElements(k, data)[0] == WriteValue(data[0].0, data[0].1).value
    ensures CarriedElements(k, data)[1..] == CarriedElements(k, data[1..])
  {
    assert forall i :: 0 <= i < |data[1..]| ==> data[1..][i] == data[i + 1];
  }

  /** `read` on a child stored by rule 3, 4 or 6 puts it in `data` and
      goes on with the rest. */
  lemma ReadStoredHead(t: Table, h: Element, rest: seq<Element>, acc: Fields, codec: FloatCodec, v: Value)
    requires (RuleFor(t, h) == AsText && v == Text(h.text)) ||
             (RuleFor(t, h) == AsDict && v == Attrib(h.attrs)) ||
             (RuleFor(t, h) == AsList && v == Pairs(ChildPairs(h)))
    ensures ReadFields(t, [h] + rest, acc, [], codec) == ReadFields(t, rest, Assoc.Put(acc, h.tag, v), [], codec)
  {
    assert ([h] + rest)[0] == h && ([h] + rest)[1..] == rest;
  }

  /** Reading the element written for a carried field gives the field back. */
  lemma ReadCarriedHead(k: Kind, f: (string, Value), rest: seq<Element>, acc: Fields, codec: FloatCodec)
    requires Carried(k, f) && !Assoc.HasKey(acc, f.0)
    ensures WriteValue(f.0, f.1).Ok?
    ensures ReadFields(ParameterTypes(k), [WriteValue(f.0, f.1).value] + rest, acc, [], codec)
         == ReadFields(ParameterTypes(k), rest, acc + [f], [], codec)
  {
    var t := ParameterTypes(k);
    var h := WriteValue(f.0, f.1).value;
    assert Assoc.Put(acc, f.0, f.1) == acc + [f];
    match f.1 {
      case Text(Some(s)) =>
        assert h == Leaf(f.0, Some(s));
        assert Attr(h, "Missing") == None;
        assert RuleFor(t, h) == AsText;
        ReadStoredHead(t, h, rest, acc, codec, f.1);
      case Attrib(a) =>
        assert h == Element(f.0, a, None, []);
        assert RuleFor(t, h) == AsDict;
        ReadStoredHead(t, h, rest, acc, codec, f.1);
      case Pairs(ps) =>
        assert h == Counted(f.0, PairElements(ps));
        assert Attr(h, "Missing") == Assoc.Get(h.attrs[1..], "Missing");
        assert RuleFor(t, h) == AsList;
        PairsRoundTrip(f.0, ps);
        ReadStoredHead(t, h, rest, acc, codec, f.1);
    }
  }

  lemma {:induction false} ReadCarried(k: Kind, data: Fields, acc: Fields, others: seq<Element>, codec: FloatCodec)
    requires Assoc.Unique(acc + data)
    requires AllCarried(k, data)
    ensures ReadFields(ParameterTypes(k), CarriedElements(k, data) + others, acc, [], codec)
         == ReadFields(ParameterTypes(k), others, acc + data, [], codec)
    decreases |data|
  {
    if |data| == 0 {
      assert CarriedElements(k, data) + others == others;
      assert acc + data == acc;
    } else {
      var es := CarriedElements(k, data);
      var acc' := acc + [data[0]];
      CarriedElementsTail(k, data);
      Assoc.PutFresh(acc, data);
      Seqs.SplitHead(es, others);
      ReadCarriedHead(k, data[0], es[1..] + others, acc, codec);
      ReadCarried(k, data[1..], acc', others, codec);
      assert [data[0]] + data[1..] == data;
      Seqs.AppendAssoc(acc, [data[0]], data[1..]);
    }
  }

  /** Captured subtrees go to `other_elem` unchanged and in order. */
  lemma {:induction false} ReadOpaque(t: Table, others: seq<Element>, d: Fields, o: seq<Element>, codec: FloatCodec)
    requires forall i :: 0 <= i < |others| ==> Opaque(t, others[i])
    ensures ReadFields(t, others, d, o, codec) == Ok((d, o + others))
    decreases |others|
  {
    if |others| == 0 {
      assert o + others == o;
    } else {
      assert RuleFor(t, others[0]) == Capture;
      assert forall i :: 0 <= i < |others[1..]| ==> others[1..][i] == others[i + 1];
      ReadOpaque(t, others[1..], d, o + [others[0]], codec);
      assert (o + [others[0]]) + others[1..] == o + others;
    }
  }

  /** The kinds read and written by the generic rules alone. */
  predicate GenericKind(k: Kind)
  {
    k == Analysis || k == Material || k == MaterialStressStrain || k == Reinforcement || k == Dataset
  }

  /** A record holding only string, dictionary and list fields and captured
      subtrees is written as one element per field, in `data` order,
      followed by the captured subtrees, and is left unchanged by the write. */
  lemma GenericWrite(k: Kind, data: Fields, other: seq<Element>, tag: string, codec: FloatCodec)
    requires GenericKind(k) && InitFields(k, data) == data
    requires AllCarried(k, data)
    ensures WriteRecord(Props(k, data, other), tag, codec) == Ok((Element(tag, [], None, CarriedElements(k, data) + other), Props(k, data, other)))
  {
    var r := Props(k, data, other);
    WriteCarried(k, data, codec);
    assert k != MaterialHydraulicFunction && k != TimeIncrements && k != Context && k != Results && k != Function;
    assert Initialize(k, data, other, codec) == Ok(r);
  }

  /** ... and reading that element back gives the same record: the same
      fields in the same order, and the same `other_elem`. */
  lemma GenericRead(k: Kind, data: Fields, other: seq<Element>, tag: string, codec: FloatCodec)
    requires GenericKind(k) && InitFields(k, data) == data
    requires Assoc.Unique(data)
    requires AllCarried(k, data)
    requires forall i :: 0 <= i < |other| ==> Opaque(ParameterTypes(k), other[i])
    ensures ReadRecord(k, Element(tag, [], None, CarriedElements(k, data) + other), codec) == Ok(Props(k, data, other))
  {
    var t := ParameterTypes(k);
    var cs := CarriedElements(k, data) + other;
    Seqs.AppendEmpty(data);
    Seqs.AppendEmpty(other);
    calc {
      ReadFields(t, cs, [], [], codec);
      { ReadCarried(k, data, [], other, codec); }
      ReadFields(t, other, [] + data, [], codec);
      { ReadOpaque(t, other, data, [], codec); }
      Ok((data, [] + other));
    }
  }

  /** `__write__` stops at the first field it cannot write: a field that is
      neither `my_data`, nor a nested record, nor a dictionary, list of
      pairs or string (a None left by reading an empty element, say) makes
      the whole write fail. */
  lemma {:induction false} UnwritableFieldFails(k: Kind, data: Fields, codec: FloatCodec, i: nat)
    requires i < |data| && data[i].0 !in MyData(k)
    requires TypeOf(ParameterTypes(k), data[i].0).None? || !TypeOf(ParameterTypes(k), data[i].0).value.Nested?
    requires !(data[i].1.Attrib? || data[i].1.Pairs? || (data[i].1.Text? && data[i].1.text.Some?))
    ensures WriteFields(k, data, codec).Err?
    decreases i
  {
    if i > 0 {
      assert data[1..][i - 1] == data[i];
      UnwritableFieldFails(k, data[1..], codec, i - 1);
    }
  }

  /** A field that fails to write fails the write of the whole record. */
  lemma FieldFailureFailsWrite(k: Kind, data: Fields, other: seq<Element>, tag: string, codec: FloatCodec)
    requires GenericKind(k) && WriteFields(k, data, codec).Err?
    ensures WriteRecord(Props(k, data, other), tag, codec) == Err(WriteFields(k, data, codec).error)
  {
  }

  /** The empty-text case of the above: a declared string field read from an
      empty element cannot be written back. */
  lemma EmptyTextNotWritable(k: Kind, tag: string, codec: FloatCodec)
    requires tag !in MyData(k)
    requires TypeOf(ParameterTypes(k), tag).None? || IsScalar(TypeOf(ParameterTypes(k), tag).value)
    ensures WriteFields(k, [(tag, Text(None))], codec) == Err(ValueError("Can't write property " + tag + " because value is not a string"))
  {
  }

  // ---------------------------------------------------------------------
  // The reinforcement default

  /** `__write__` emits an element for a field exactly when the field is
      stored and is not `my_data`. */
  lemma {:induction false} WrittenKeysHas(k: Kind, data: Fields, key: string)
    requires key !in MyData(k)
    ensures key in WrittenKeys(k, data) <==> Assoc.HasKey(data, key)
    decreases |data|
  {
    if |data| > 0 {
      WrittenKeysHas(k, data[1..], key);
      if Assoc.HasKey(data[1..], key) {
        var i :| 0 <= i < |data[1..]| && data[1..][i].0 == key;
        assert data[i + 1].0 == key;
      }
      if Assoc.HasKey(data, key) && data[0].0 != key {
        var i :| 0 <= i < |data| && data[i].0 == key;
        assert data[1..][i - 1].0 == key;
      }
    }
  }

  /** A `my_data` field is never emitted, whatever `data` holds: the
      Geometry, Context and Results links of an Analysis, say. */
  lemma {:induction false} MyDataNeverWritten(k: Kind, data: Fields, key: string)
    requires key in MyData(k)
    ensures key !in WrittenKeys(k, data)
    decreases |data|
  {
    if |data| > 0 {
      MyDataNeverWritten(k, data[1..], key);
    }
  }

  /** So no element a successful write emits carries a `my_data` tag. */
  lemma MyDataNoElement(k: Kind, data: Fields, key: string, codec: FloatCodec)
    requires key in MyData(k) && WriteFields(k, data, codec).Ok?
    ensures forall i :: 0 <= i < |WriteFields(k, data, codec).value.0| ==>
      WriteFields(k, data, codec).value.0[i].tag != key
  {
    MyDataNeverWritten(k, data, key);
    TagsMember(WriteFields(k, data, codec).value.0, key);
  }

  /** The branch `read` calls unreachable is reached by a declared scalar
      field whose element has children: the read stops with ValueError. */
  lemma ScalarWithChildrenFails(t: Table, e: Element, rest: seq<Element>, d: Fields, o: seq<Element>, codec: FloatCodec)
    requires !IsMissing(e) && |e.children| > 0
    requires TypeOf(t, e.tag).Some? && IsScalar(TypeOf(t, e.tag).value)
    ensures ReadFields(t, [e] + rest, d, o, codec) == Err(ValueError("You are not supposed to be here..."))
  {
    assert ([e] + rest)[0] == e;
  }

  /** An Analysis whose ID element has a child cannot be read. */
  lemma AnalysisIdWithChildFails(codec: FloatCodec)
    ensures ReadRecord(Analysis, Element("Analysis", [], None, [Element("ID", [], None, [Leaf("x", None)])]), codec).Err?
  {
    var e := Element("ID", [], None, [Leaf("x", None)]);
    assert Attr(e, "Missing") == None;
    ScalarWithChildrenFails(ParameterTypes(Analysis), e, [], [], [], codec);
    assert [e] + [] == [e];
  }

  lemma TagsMember(es: seq<Element>, key: string)
    ensures key in Tags(es) <==> exists i :: 0 <= i < |es| && es[i].tag == key
  {
    if key in Tags(es) {
      var i :| 0 <= i < |Tags(es)| && Tags(es)[i] == key;
      assert es[i].tag == key;
    } else {
      forall i | 0 <= i < |es| ensures es[i].tag != key {
        assert Tags(es)[i] == es[i].tag;
      }
    }
  }

  lemma SameKeys(a: Fields, b: Fields, key: string)
    requires Assoc.Keys(a) == Assoc.Keys(b)
    ensures Assoc.HasKey(a, key) <==> Assoc.HasKey(b, key)
  {
    forall i | 0 <= i < |a| ensures a[i].0 == b[i].0 {
      assert Assoc.Keys(a)[i] == Assoc.Keys(b)[i];
    }
    assert |a| == |Assoc.Keys(a)| == |b|;
  }

  /** A reinforcement without a Type writes no Type element, but the
      `__initialize__` that ends the write gives it Type "Anchors"... */
  lemma ReinforcementGainsType(data: Fields, other: seq<Element>, tag: string, codec: FloatCodec)
    requires !Assoc.HasKey(data, "Type")
    requires WriteFields(Reinforcement, data, codec).Ok?
    ensures WriteRecord(Props(Reinforcement, data, other), tag, codec).Ok?
    ensures var w := WriteFields(Reinforcement, data, codec).value;
            var res := WriteRecord(Props(Reinforcement, data, other), tag, codec).value;
            res.0.children == w.0 + other &&
            (forall i :: 0 <= i < |w.0| ==> w.0[i].tag != "Type") &&
            res.1.Props? && Assoc.Get(res.1.data, "Type") == Some(Text(Some("Anchors")))
  {
    var w := WriteFields(Reinforcement, data, codec).value;
    WrittenKeysHas(Reinforcement, data, "Type");
    TagsMember(w.0, "Type");
    SameKeys(w.1, data, "Type");
  }

  /** ... so the next write emits a Type element. */
  lemma StoredTypeWritten(data: Fields, codec: FloatCodec)
    requires Assoc.HasKey(data, "Type")
    requires WriteFields(Reinforcement, data, codec).Ok?
    ensures exists i :: 0 <= i < |WriteFields(Reinforcement, data, codec).value.0| &&
                        WriteFields(Reinforcement, data, codec).value.0[i].tag == "Type"
  {
    WrittenKeysHas(Reinforcement, data, "Type");
    TagsMember(WriteFields(Reinforcement, data, codec).value.0, "Type");
  }
}
