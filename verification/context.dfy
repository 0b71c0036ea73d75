/** `Context`: the material and hydraulic-boundary distribution of one
    analysis. Its two distribution children are `Len`-prefixed maps from a
    region key to an integer entry; every other child is a text leaf. */
module Contexts {
  import opened Wrappers
  import opened Xml
  import opened Values
  import Assoc
  import Text
  import Seqs

  const MaterialsTag := "GeometryUsesMaterials"
  const BCsTag := "GeometryUsesHydraulicBCs"

  /** The tag the writer gives each entry of a distribution map. */
  function EntryTag(mapTag: string): string
  {
    if mapTag == MaterialsTag then "GeometryUsesMaterial" else BCsTag
  }

  predicate IsMapTag(tag: string)
  {
    tag == MaterialsTag || tag == BCsTag
  }

  /** The entry an element carries: its `ID` and `int(Entry)`. */
  function EntryOf(e: Element): (r: Result<(string, int)>)
    ensures r.Ok? <==> Attr(e, "ID").Some? && IntAttr(e, "Entry").Ok?
    ensures r.Ok? ==> r.value == (Attr(e, "ID").value, IntAttr(e, "Entry").value)
  {
    match Attr(e, "ID")
    case None => Err(KeyError("ID"))
    case Some(id) =>
      match IntAttr(e, "Entry")
      case Err(err) => Err(err)
      case Ok(n) => Ok((id, n))
  }

  /** Every element carries an entry. */
  predicate AllEntries(cs: seq<Element>)
  {
    forall i :: 0 <= i < |cs| ==> EntryOf(cs[i]).Ok?
  }

  /** The inner loop of `read`: each entry element assigns its region in
      the map; a later duplicate overwrites an earlier one. */
  function ReadEntries(cs: seq<Element>, m: seq<(string, int)>): (r: Result<seq<(string, int)>>)
    ensures r.Ok? <==> AllEntries(cs)
  {
    if |cs| == 0 then Ok(m)
    else
      match EntryOf(cs[0])
      case Err(err) => Err(err)
      case Ok(p) => ReadEntries(cs[1..], Assoc.Put(m, p.0, p.1))
  }

  /** The map held so far under a distribution tag. */
  function MapOf(acc: Fields, tag: string): seq<(string, int)>
  {
    var v: Option<Value> := Assoc.Get(acc, tag);
    if v.Some? && v.value.IntMap? then v.value.entries else []
  }

  /** `read`, as a fold over the children, counting the warnings issued
      when a map's size differs from its `Len`. Neither `Missing` markers
      nor subtrees get special treatment. */
  function ReadContext(cs: seq<Element>, acc: Fields, warnings: nat): Result<(Fields, nat)>
  {
    if |cs| == 0 then Ok((acc, warnings))
    else
      var p := cs[0];
      if IsMapTag(p.tag) then
        match IntAttr(p, "Len")
        case Err(err) => Err(err)
        case Ok(n) =>
          match ReadEntries(p.children, MapOf(acc, p.tag))
          case Err(err) => Err(err)
          case Ok(m) =>
            ReadContext(cs[1..], Assoc.Put(acc, p.tag, IntMap(m)), if |m| != n then warnings + 1 else warnings)
      else ReadContext(cs[1..], Assoc.Put(acc, p.tag, Text(p.text)), warnings)
  }

  function Read(e: Element): Result<(Record, nat)>
  {
    match ReadContext(e.children, [], 0)
    case Err(err) => Err(err)
    case Ok(res) => Ok((Props(Schema.Context, res.0, []), res.1))
  }

  /** The element written for one map entry. */
  function EntryElement(mapTag: string, p: (string, int)): Element
  {
    Element(EntryTag(mapTag), [("ID", p.0), ("Entry", Text.IntStr(p.1))], None, [])
  }

  /** One entry element per map entry, in map order. */
  function EntryElements(mapTag: string, m: seq<(string, int)>): (r: seq<Element>)
    ensures |r| == |m|
    ensures forall i :: 0 <= i < |m| ==> r[i] == EntryElement(mapTag, m[i])
  {
    seq(|m|, i requires 0 <= i < |m| => EntryElement(mapTag, m[i]))
  }

  /** The element `__write__` emits for one entry of `data`. */
  function WriteField(tag: string, val: Value): (r: Result<Element>)
    ensures r.Ok? ==> r.value.tag == tag
    ensures r.Ok? && IsMapTag(tag) ==> val.IntMap? && r.value.attrs == [("Len", Text.IntStr(|val.entries|))]
  {
    if IsMapTag(tag) then
      match val
      case IntMap(m) => Ok(Counted(tag, EntryElements(tag, m)))
      case Text(None) => Err(TypeError("object of type 'NoneType' has no len()"))
      case _ => Err(AttributeError("items"))
    else if val.Text? then Ok(Leaf(tag, val.text))
    else Err(TypeError("cannot serialize " + tag))
  }

  function WriteContext(data: Fields): (r: Result<seq<Element>>)
    ensures r.Ok? ==> |r.value| == |data|
    ensures r.Ok? ==> forall i :: 0 <= i < |data| ==> r.value[i].tag == data[i].0
  {
    if |data| == 0 then Ok([])
    else
      match WriteField(data[0].0, data[0].1)
      case Err(e) => Err(e)
      case Ok(h) =>
        match WriteContext(data[1..])
        case Err(e) => Err(e)
        case Ok(rest) => Ok([h] + rest)
  }

  // ---------------------------------------------------------------------
  // The map a distribution child denotes

  /** Element `i` is the last of `cs` that names region `k`. */
  predicate LastNaming(cs: seq<Element>, i: int, k: string)
  {
    0 <= i < |cs| && Attr(cs[i], "ID") == Some(k) &&
    forall j :: i < j < |cs| ==> Attr(cs[j], "ID") != Some(k)
  }

  predicate NoneNaming(cs: seq<Element>, k: string)
  {
    forall i :: 0 <= i < |cs| ==> Attr(cs[i], "ID") != Some(k)
  }

  lemma ReadEntriesCons(cs: seq<Element>, m: seq<(string, int)>)
    requires |cs| > 0 && EntryOf(cs[0]).Ok?
    ensures ReadEntries(cs, m) == ReadEntries(cs[1..], Assoc.Put(m, EntryOf(cs[0]).value.0, EntryOf(cs[0]).value.1))
  {
  }

  /** `read` leaves in the map, for every region, the entry of the LAST
      element naming that region; regions no element names keep the value
      they had before. */
  lemma {:induction false} LastEntryWins(cs: seq<Element>, m: seq<(string, int)>)
    requires ReadEntries(cs, m).Ok?
    ensures forall i, k :: LastNaming(cs, i, k) ==>
      Assoc.Get(ReadEntries(cs, m).value, k) == Some(EntryOf(cs[i]).value.1)
    ensures forall k :: NoneNaming(cs, k) ==>
      Assoc.Get(ReadEntries(cs, m).value, k) == Assoc.Get(m, k)
  {
    if |cs| > 0 {
      var p := EntryOf(cs[0]).value;
      var m' := Assoc.Put(m, p.0, p.1);
      var r := ReadEntries(cs, m).value;
      ReadEntriesCons(cs, m);
      LastEntryWins(cs[1..], m');
      forall i, k | LastNaming(cs, i, k)
        ensures Assoc.Get(r, k) == Some(EntryOf(cs[i]).value.1)
      {
        if i == 0 {
          forall j | 0 <= j < |cs[1..]| ensures Attr(cs[1..][j], "ID") != Some(k) {
            assert cs[1..][j] == cs[j + 1];
          }
          assert NoneNaming(cs[1..], k);
        } else {
          assert cs[1..][i - 1] == cs[i];
          forall j | i - 1 < j < |cs[1..]| ensures Attr(cs[1..][j], "ID") != Some(k) {
            assert cs[1..][j] == cs[j + 1];
          }
          assert LastNaming(cs[1..], i - 1, k);
        }
      }
      forall k | NoneNaming(cs, k)
        ensures Assoc.Get(r, k) == Assoc.Get(m, k)
      {
        assert Attr(cs[0], "ID") != Some(k);
        forall j | 0 <= j < |cs[1..]| ensures Attr(cs[1..][j], "ID") != Some(k) {
          assert cs[1..][j] == cs[j + 1];
        }
        assert NoneNaming(cs[1..], k);
      }
    }
  }

  /** Two entries naming the same region leave only the later one. */
  lemma DuplicateOverwrites(tag: string, id: string, a: int, b: int)
    ensures ReadEntries([Element(tag, [("ID", id), ("Entry", Text.IntStr(a))], None, []),
                         Element(tag, [("ID", id), ("Entry", Text.IntStr(b))], None, [])], [])
         == Ok([(id, b)])
  {
    Text.IntStrRoundTrip(a);
    Text.IntStrRoundTrip(b);
    var e1 := Element(tag, [("ID", id), ("Entry", Text.IntStr(a))], None, []);
    var e2 := Element(tag, [("ID", id), ("Entry", Text.IntStr(b))], None, []);
    assert Attr(e1, "Entry") == Assoc.Get(e1.attrs[1..], "Entry");
    assert Attr(e2, "Entry") == Assoc.Get(e2.attrs[1..], "Entry");
    assert EntryOf(e1) == Ok((id, a));
    assert EntryOf(e2) == Ok((id, b));
    var cs := [e1, e2];
    assert cs[1..] == [e2] && [e2][1..] == [];
    ReadEntriesCons(cs, []);
    ReadEntriesCons([e2], [(id, a)]);
    assert Assoc.Put([], id, a) == [(id, a)];
    assert Assoc.Put([(id, a)], id, b) == [(id, b)];
  }

  // ---------------------------------------------------------------------
  // Round trip

  lemma EntryElementRead(mapTag: string, k: string, v: int)
    ensures EntryOf(EntryElement(mapTag, (k, v))) == Ok((k, v))
  {
    Text.IntStrRoundTrip(v);
    var e := EntryElement(mapTag, (k, v));
    assert Attr(e, "Entry") == Assoc.Get(e.attrs[1..], "Entry");
  }

  lemma EntryElementsTail(mapTag: string, m: seq<(string, int)>)
    requires |m| > 0
    ensures EntryElements(mapTag, m)[1..] == EntryElements(mapTag, m[1..])
  {
    var a := EntryElements(mapTag, m)[1..];
    var b := EntryElements(mapTag, m[1..]);
    forall i | 0 <= i < |a| ensures a[i] == b[i] {
      assert m[1..][i] == m[i + 1];
    }
  }

  /** The entries of a map without duplicate regions, written and read
      back into the map accumulated so far, extend it. */
  lemma {:induction false} EntriesRoundTrip(mapTag: string, acc: seq<(string, int)>, m: seq<(string, int)>)
    requires Assoc.Unique(acc + m)
    ensures ReadEntries(EntryElements(mapTag, m), acc) == Ok(acc + m)
    decreases |m|
  {
    if |m| == 0 {
      assert acc + m == acc;
    } else {
      var acc' := acc + [m[0]];
      var tail := m[1..];
      EntriesStep(mapTag, acc, m);
      EntriesRoundTrip(mapTag, acc', tail);
      assert [m[0]] + tail == m;
      Seqs.AppendAssoc(acc, [m[0]], tail);
    }
  }

  lemma EntriesStep(mapTag: string, acc: seq<(string, int)>, m: seq<(string, int)>)
    requires |m| > 0 && Assoc.Unique(acc + m)
    ensures Assoc.Unique((acc + [m[0]]) + m[1..])
    ensures ReadEntries(EntryElements(mapTag, m), acc) == ReadEntries(EntryElements(mapTag, m[1..]), acc + [m[0]])
  {
    var es := EntryElements(mapTag, m);
    EntryElementRead(mapTag, m[0].0, m[0].1);
    assert EntryOf(es[0]) == Ok(m[0]);
    ReadEntriesCons(es, acc);
    Assoc.PutFresh(acc, m);
    EntryElementsTail(mapTag, m);
  }

  /** The shape `read` produces: maps under the two distribution tags,
      text everywhere else, no key twice. */
  predicate WellFormed(data: Fields)
  {
    Assoc.Unique(data) &&
    forall i :: 0 <= i < |data| ==>
      (IsMapTag(data[i].0) ==> data[i].1.IntMap? && Assoc.Unique(data[i].1.entries)) &&
      (!IsMapTag(data[i].0) ==> data[i].1.Text?)
  }

  lemma WellFormedTail(data: Fields)
    requires |data| > 0 && WellFormed(data)
    ensures WellFormed(data[1..])
  {
    forall i, j | 0 <= i < j < |data[1..]| ensures data[1..][i].0 != data[1..][j].0 {
      assert data[1..][i] == data[i + 1] && data[1..][j] == data[j + 1];
    }
    forall i | 0 <= i < |data[1..]|
      ensures (IsMapTag(data[1..][i].0) ==> data[1..][i].1.IntMap? && Assoc.Unique(data[1..][i].1.entries))
      ensures (!IsMapTag(data[1..][i].0) ==> data[1..][i].1.Text?)
    {
      assert data[1..][i] == data[i + 1];
    }
  }

  /** Reading the element written for the first entry appends that entry,
      with no warning: the written `Len` is the map's size. */
  lemma ReadHead(acc: Fields, data: Fields, rest: seq<Element>, w: nat)
    requires |data| > 0 && Assoc.Unique(acc + data) && WellFormed(data)
    ensures WriteField(data[0].0, data[0].1).Ok?
    ensures ReadContext([WriteField(data[0].0, data[0].1).value] + rest, acc, w) == ReadContext(rest, acc + [data[0]], w)
  {
    var tag := data[0].0;
    var val := data[0].1;
    Assoc.PutFresh(acc, data);
    var h := WriteField(tag, val).value;
    assert ([h] + rest)[1..] == rest;
    if IsMapTag(tag) {
      var m := val.entries;
      Text.IntStrRoundTrip(|m|);
      assert IntAttr(h, "Len") == Ok(|m|);
      assert MapOf(acc, tag) == [];
      assert [] + m == m;
      EntriesRoundTrip(tag, [], m);
    }
  }

  lemma {:induction false} ReadWritten(acc: Fields, data: Fields, w: nat)
    requires Assoc.Unique(acc + data) && WellFormed(data)
    ensures WriteContext(data).Ok?
    ensures ReadContext(WriteContext(data).value, acc, w) == Ok((acc + data, w))
    decreases |data|
  {
    if |data| == 0 {
      assert acc + data == acc;
    } else {
      WellFormedTail(data);
      assert acc + data == (acc + [data[0]]) + data[1..];
      ReadWritten(acc + [data[0]], data[1..], w);
      ReadHead(acc, data, WriteContext(data[1..]).value, w);
    }
  }

  /** Both distribution maps and the text entries survive a write and a
      read, in order and without a warning. */
  lemma RoundTrip(data: Fields)
    requires WellFormed(data)
    ensures WriteContext(data).Ok?
    ensures Read(Element("Context", [], None, WriteContext(data).value)) == Ok((Props(Schema.Context, data, []), 0))
  {
    assert [] + data == data;
    ReadWritten([], data, 0);
  }

  /** A `Len` that disagrees with the map only adds a warning. */
  lemma CountMismatchWarns(tag: string, n: int, m: seq<(string, int)>)
    requires IsMapTag(tag) && Assoc.Unique(m) && n != |m|
    ensures Read(Element("Context", [], None, [Element(tag, [("Len", Text.IntStr(n))], None, EntryElements(tag, m))]))
         == Ok((Props(Schema.Context, [(tag, IntMap(m))], []), 1))
  {
    Text.IntStrRoundTrip(n);
    assert [] + m == m;
    EntriesRoundTrip(tag, [], m);
    var p := Element(tag, [("Len", Text.IntStr(n))], None, EntryElements(tag, m));
    assert IntAttr(p, "Len") == Ok(n);
    var none: Fields := [];
    assert MapOf(none, tag) == [];
    assert ReadEntries(p.children, []) == Ok(m);
    assert [p][1..] == [];
    assert ReadContext([p], none, 0) == ReadContext([], [(tag, IntMap(m))], 1);
  }
}
