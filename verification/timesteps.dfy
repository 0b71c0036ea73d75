/** `TimeIncrements`: the time-stepping record of an analysis. Its
    `TimeSteps` child is a `Len`-prefixed list of `TimeStep` elements, each
    read as its attribute dictionary; every other child is a text leaf. */
module TimeSteps {
  import opened Wrappers
  import opened Xml
  import opened Values
  import Assoc
  import Text

  /** The step list collected so far (empty before the first `TimeSteps`). */
  function StepsOf(acc: Fields): seq<Attrs>
  {
    var v: Option<Value> := Assoc.Get(acc, "TimeSteps");
    if v.Some? && v.value.AttribList? then v.value.dicts else []
  }

  /** The attribute dictionaries of some elements, in document order. */
  function AttrsOf(cs: seq<Element>): (r: seq<Attrs>)
    ensures |r| == |cs| && forall i :: 0 <= i < |cs| ==> r[i] == cs[i].attrs
  {
    seq(|cs|, i requires 0 <= i < |cs| => cs[i].attrs)
  }

  /** `read`, as a fold over the children. `Len` must be an integer but is
      not compared with the number of steps. */
  function ReadSteps(cs: seq<Element>, acc: Fields): Result<Fields>
  {
    if |cs| == 0 then Ok(acc)
    else
      var p := cs[0];
      if p.tag == "TimeSteps" then
        match IntAttr(p, "Len")
        case Err(e) => Err(e)
        case Ok(_) => ReadSteps(cs[1..], Assoc.Put(acc, "TimeSteps", AttribList(StepsOf(acc) + AttrsOf(p.children))))
      else ReadSteps(cs[1..], Assoc.Put(acc, p.tag, Text(p.text)))
  }

  function Read(e: Element): Result<Record>
  {
    match ReadSteps(e.children, [])
    case Err(err) => Err(err)
    case Ok(data) => Ok(Props(Schema.TimeIncrements, data, []))
  }

  /** One `TimeStep` element per dictionary, carrying exactly it. */
  function StepElements(ds: seq<Attrs>): (r: seq<Element>)
    ensures |r| == |ds|
    ensures forall i :: 0 <= i < |ds| ==> r[i] == Element("TimeStep", ds[i], None, [])
  {
    seq(|ds|, i requires 0 <= i < |ds| => Element("TimeStep", ds[i], None, []))
  }

  /** The dictionaries written as `TimeStep` children are read back as the
      same step list, in the same order. */
  lemma StepsRoundTrip(ds: seq<Attrs>)
    ensures AttrsOf(StepElements(ds)) == ds
  {
  }

  /** The element `__write__` emits for one entry. The step list is
      written with `Len` set to its `len` and one `TimeStep` per item,
      whose attributes are the item. Any other value with a length is
      iterated the same way, and ElementTree refuses an item that is not a
      dictionary as attributes, so only an empty one gives an element. A
      text value elsewhere may be None (an empty element); any other value
      cannot be serialised. */
  function WriteField(tag: string, val: Value): (r: Result<Element>)
    ensures r.Ok? ==> r.value.tag == tag
    ensures tag == "TimeSteps" ==> (r.Ok? <==> val.AttribList? || Length(val) == Some(0))
    ensures tag == "TimeSteps" && r.Ok? ==> IntAttr(r.value, "Len") == Ok(Length(val).value)
    ensures tag == "TimeSteps" && r.Ok? ==> AttrsOf(r.value.children) == (if val.AttribList? then val.dicts else [])
    ensures tag != "TimeSteps" ==> (r.Ok? <==> val.Text?)
  {
    if tag == "TimeSteps" then
      if val.AttribList? then
        CountedLen(tag, StepElements(val.dicts));
        Ok(Counted(tag, StepElements(val.dicts)))
      else
        match Length(val)
        case None => Err(TypeError("object has no len()"))
        case Some(n) =>
          if n == 0 then
            CountedLen(tag, []);
            Ok(Counted(tag, []))
          else Err(TypeError("attrib must be dict"))
    else if val.Text? then Ok(Leaf(tag, val.text))
    else Err(TypeError("cannot serialize " + tag))
  }

  /** Time steps left as an empty value other than a step list (say the
      empty string) are written as an empty `TimeSteps`, which reads back as
      the empty step list. */
  lemma EmptyStepsRead(val: Value, rest: seq<Element>, acc: Fields)
    requires Length(val) == Some(0) && !Assoc.HasKey(acc, "TimeSteps")
    ensures WriteField("TimeSteps", val).Ok?
    ensures ReadSteps([WriteField("TimeSteps", val).value] + rest, acc)
         == ReadSteps(rest, acc + [("TimeSteps", AttribList([]))])
  {
    var h := Counted("TimeSteps", []);
    assert WriteField("TimeSteps", val) == Ok(h);
    CountedLen("TimeSteps", []);
    var cs := [h] + rest;
    assert cs[0] == h && cs[1..] == rest;
    assert StepsOf(acc) + AttrsOf(h.children) == [];
    assert Assoc.Put(acc, "TimeSteps", AttribList([])) == acc + [("TimeSteps", AttribList([]))];
  }

  /** `__write__`: one child per entry, in `data` order. */
  function WriteSteps(data: Fields): (r: Result<seq<Element>>)
    ensures r.Ok? ==> |r.value| == |data|
    ensures r.Ok? ==> forall i :: 0 <= i < |data| ==> r.value[i].tag == data[i].0
  {
    if |data| == 0 then Ok([])
    else
      match WriteField(data[0].0, data[0].1)
      case Err(e) => Err(e)
      case Ok(h) =>
        match WriteSteps(data[1..])
        case Err(e) => Err(e)
        case Ok(rest) => Ok([h] + rest)
  }

  /** The shape `read` produces: the step list under `TimeSteps`, text
      everywhere else, no key twice. */
  predicate WellFormed(data: Fields)
  {
    Assoc.Unique(data) &&
    forall i :: 0 <= i < |data| ==>
      (data[i].0 == "TimeSteps" ==> data[i].1.AttribList?) &&
      (data[i].0 != "TimeSteps" ==> data[i].1.Text?)
  }

  lemma CountedLen(tag: string, cs: seq<Element>)
    ensures IntAttr(Counted(tag, cs), "Len") == Ok(|cs|)
  {
    Text.IntStrRoundTrip(|cs|);
  }

  lemma WellFormedTail(data: Fields)
    requires |data| > 0 && WellFormed(data)
    ensures WellFormed(data[1..])
  {
    forall i, j | 0 <= i < j < |data[1..]| ensures data[1..][i].0 != data[1..][j].0 {
      assert data[1..][i] == data[i + 1] && data[1..][j] == data[j + 1];
    }
    forall i | 0 <= i < |data[1..]|
      ensures (data[1..][i].0 == "TimeSteps" ==> data[1..][i].1.AttribList?)
      ensures (data[1..][i].0 != "TimeSteps" ==> data[1..][i].1.Text?)
    {
      assert data[1..][i] == data[i + 1];
    }
  }

  /** Reading the element written for the first entry appends that entry. */
  lemma ReadHead(acc: Fields, data: Fields, rest: seq<Element>)
    requires |data| > 0 && Assoc.Unique(acc + data) && WellFormed(data)
    ensures WriteField(data[0].0, data[0].1).Ok?
    ensures ReadSteps([WriteField(data[0].0, data[0].1).value] + rest, acc) == ReadSteps(rest, acc + [data[0]])
  {
    var tag := data[0].0;
    var val := data[0].1;
    Assoc.PutFresh(acc, data);
    var h := WriteField(tag, val).value;
    assert ([h] + rest)[1..] == rest;
    if tag == "TimeSteps" {
      CountedLen(tag, StepElements(val.dicts));
      assert StepsOf(acc) == [];
      assert AttrsOf(h.children) == val.dicts;
      assert [] + val.dicts == val.dicts;
    }
  }

  lemma {:induction false} ReadWritten(acc: Fields, data: Fields)
    requires Assoc.Unique(acc + data) && WellFormed(data)
    ensures WriteSteps(data).Ok?
    ensures ReadSteps(WriteSteps(data).value, acc) == Ok(acc + data)
    decreases |data|
  {
    if |data| == 0 {
      assert acc + data == acc;
    } else {
      WellFormedTail(data);
      assert acc + data == (acc + [data[0]]) + data[1..];
      ReadWritten(acc + [data[0]], data[1..]);
      ReadHead(acc, data, WriteSteps(data[1..]).value);
    }
  }

  /** What `read` produces is written back and read again unchanged, steps
      and order included. */
  lemma RoundTrip(data: Fields)
    requires WellFormed(data)
    ensures WriteSteps(data).Ok?
    ensures ReadSteps(WriteSteps(data).value, []) == Ok(data)
  {
    assert [] + data == data;
    ReadWritten([], data);
  }

  /** Repeated `TimeSteps` elements are concatenated, in document order. */
  lemma RepeatedStepsConcatenate(a: seq<Element>, b: seq<Element>)
    ensures ReadSteps([Counted("TimeSteps", a), Counted("TimeSteps", b)], [])
         == Ok([("TimeSteps", AttribList(AttrsOf(a) + AttrsOf(b)))])
  {
    CountedLen("TimeSteps", a);
    CountedLen("TimeSteps", b);
    var cs := [Counted("TimeSteps", a), Counted("TimeSteps", b)];
    var none: Fields := [];
    var one: Fields := [("TimeSteps", AttribList(AttrsOf(a)))];
    assert StepsOf(none) == [];
    assert [] + AttrsOf(a) == AttrsOf(a);
    assert ReadSteps(cs, none) == ReadSteps(cs[1..], one);
    assert StepsOf(one) == AttrsOf(a);
    assert Assoc.Put(one, "TimeSteps", AttribList(AttrsOf(a) + AttrsOf(b))) == [("TimeSteps", AttribList(AttrsOf(a) + AttrsOf(b)))];
    assert cs[1..][1..] == [];
  }

  /** A step is saved when its `Save` value is a non-empty string (Python
      truthiness: `"false"` counts as saved). */
  predicate IsSaved(d: Attrs)
  {
    Assoc.Get(d, "Save").Some? && |Assoc.Get(d, "Save").value| > 0
  }

  /** Every step has `Save`, and every saved step has `ElapsedTime`. */
  predicate Answerable(ds: seq<Attrs>)
  {
    forall i :: 0 <= i < |ds| ==>
      Assoc.HasKey(ds[i], "Save") && (IsSaved(ds[i]) ==> Assoc.HasKey(ds[i], "ElapsedTime"))
  }

  /** Every time listed is the ElapsedTime of some saved step. */
  predicate SavedTimesOf(ts: seq<string>, ds: seq<Attrs>)
  {
    forall t :: t in ts ==>
      exists i :: 0 <= i < |ds| && IsSaved(ds[i]) && Assoc.Get(ds[i], "ElapsedTime") == Some(t)
  }

  /** The step list comprehension of `getSavedTimeStep`. */
  function SavedFrom(ds: seq<Attrs>): (r: Result<seq<string>>)
    ensures r.Ok? <==> Answerable(ds)
    ensures r.Ok? ==> |r.value| <= |ds|
    ensures r.Ok? ==> SavedTimesOf(r.value, ds)
  {
    if |ds| == 0 then Ok([])
    else
      match Assoc.Get(ds[0], "Save")
      case None => Err(KeyError("Save"))
      case Some(s) =>
        if |s| > 0 then
          match Assoc.Get(ds[0], "ElapsedTime")
          case None => Err(KeyError("ElapsedTime"))
          case Some(t) =>
            match SavedFrom(ds[1..])
            case Err(e) => Err(e)
            case Ok(rest) => Ok([t] + rest)
        else SavedFrom(ds[1..])
  }

  /** `getSavedTimeStep`: KeyError when there is no step list. */
  function SavedTimes(data: Fields): Result<seq<string>>
  {
    var v: Option<Value> := Assoc.Get(data, "TimeSteps");
    if v.None? then Err(KeyError("TimeSteps"))
    else if v.value.AttribList? then SavedFrom(v.value.dicts)
    else Err(NotModelled("time steps that are not a list of dictionaries"))
  }

  /** The ElapsedTime of every step, in step order. */
  function Elapsed(ds: seq<Attrs>): seq<Option<string>>
  {
    seq(|ds|, i requires 0 <= i < |ds| => Assoc.Get(ds[i], "ElapsedTime"))
  }

  /** One saved step in front of the others puts its time in front. */
  lemma SavedStep(ds: seq<Attrs>)
    requires |ds| > 0 && IsSaved(ds[0]) && Assoc.HasKey(ds[0], "ElapsedTime") && SavedFrom(ds[1..]).Ok?
    ensures SavedFrom(ds) == Ok([Assoc.Get(ds[0], "ElapsedTime").value] + SavedFrom(ds[1..]).value)
  {
  }

  lemma ElapsedCons(ds: seq<Attrs>, i: nat)
    requires 0 < i < |ds|
    ensures Elapsed(ds)[i] == Elapsed(ds[1..])[i - 1]
  {
    assert ds[1..][i - 1] == ds[i];
  }

  /** When every step is saved, the result lists every step's ElapsedTime in
      step order. */
  lemma {:induction false} AllSavedInOrder(ds: seq<Attrs>)
    requires forall i :: 0 <= i < |ds| ==> IsSaved(ds[i]) && Assoc.HasKey(ds[i], "ElapsedTime")
    ensures SavedFrom(ds).Ok?
    ensures |SavedFrom(ds).value| == |ds|
    ensures forall i :: 0 <= i < |ds| ==> Some(SavedFrom(ds).value[i]) == Elapsed(ds)[i]
  {
    if |ds| > 0 {
      var tail := ds[1..];
      assert forall i :: 0 <= i < |tail| ==> tail[i] == ds[i + 1];
      AllSavedInOrder(tail);
      var rest := SavedFrom(tail).value;
      var t := Assoc.Get(ds[0], "ElapsedTime").value;
      SavedStep(ds);
      var r := [t] + rest;
      forall i | 0 <= i < |ds| ensures Some(r[i]) == Elapsed(ds)[i] {
        if i > 0 {
          assert r[i] == rest[i - 1];
          ElapsedCons(ds, i);
        }
      }
    }
  }

  lemma SavedSingle(d: Attrs, t: string)
    requires IsSaved(d) && Assoc.Get(d, "ElapsedTime") == Some(t)
    ensures SavedFrom([d]) == Ok([t])
  {
    assert [d][1..] == [];
    assert [t] + [] == [t];
  }

  /** A step whose `Save` text is empty contributes nothing. */
  lemma UnsavedSingle(d: Attrs)
    requires Assoc.HasKey(d, "Save") && !IsSaved(d)
    ensures SavedFrom([d]) == Ok([])
  {
    assert [d][1..] == [];
  }

  /** The query over two runs of steps is the query over the first followed
      by the query over the second; with `SavedSingle` and `UnsavedSingle`
      this pins the result down step by step. */
  lemma {:induction false} SavedAppend(a: seq<Attrs>, b: seq<Attrs>)
    ensures SavedFrom(a + b).Ok? <==> SavedFrom(a).Ok? && SavedFrom(b).Ok?
    ensures SavedFrom(a + b).Ok? ==> SavedFrom(a + b).value == SavedFrom(a).value + SavedFrom(b).value
    decreases |a|
  {
    if |a| == 0 {
      assert a + b == b;
    } else {
      var ab := a + b;
      assert ab[0] == a[0] && ab[1..] == a[1..] + b;
      SavedAppend(a[1..], b);
      if SavedFrom(ab).Ok? && IsSaved(a[0]) {
        var t := Assoc.Get(a[0], "ElapsedTime").value;
        assert SavedFrom(ab).value == [t] + SavedFrom(a[1..] + b).value;
        assert SavedFrom(a).value == [t] + SavedFrom(a[1..]).value;
      }
    }
  }

  /** A step whose `Save` text is `"false"` is still reported as saved. */
  lemma SaveFalseIsSaved(t: string)
    ensures SavedFrom([[("Save", "false"), ("ElapsedTime", t)]]) == Ok([t])
  {
    var d: Attrs := [("Save", "false"), ("ElapsedTime", t)];
    assert Assoc.Get(d, "Save") == Some("false");
    assert Assoc.Get(d, "ElapsedTime") == Assoc.Get(d[1..], "ElapsedTime") == Some(t);
    SavedSingle(d, t);
  }

  /** A step without `Save` makes the whole query fail. */
  lemma MissingSaveFails(ds: seq<Attrs>, i: nat)
    requires i < |ds| && !Assoc.HasKey(ds[i], "Save")
    ensures SavedFrom(ds) == Err(KeyError("Save")) || SavedFrom(ds) == Err(KeyError("ElapsedTime"))
  {
    assert !SavedFrom(ds).Ok?;
    MissingSaveError(ds);
  }

  lemma {:induction false} MissingSaveError(ds: seq<Attrs>)
    ensures SavedFrom(ds).Err? ==> SavedFrom(ds) == Err(KeyError("Save")) || SavedFrom(ds) == Err(KeyError("ElapsedTime"))
  {
    if |ds| > 0 {
      MissingSaveError(ds[1..]);
    }
  }
}
