/** What reading and writing the Functions section keep: every Function
    read records the key path it was read under, elements the dictionary
    does not know are written back as they were read, and a section written
    from a dictionary reads back into that dictionary. */
module FunctionTreeProofs {
  import opened Wrappers
  import opened Xml
  import opened Values
  import opened FunctionTrees
  import Assoc
  import Marshal

  /** Every Function below a node records the key path leading to its list. */
  predicate TypedNode(n: Node, path: seq<string>)
  {
    match n
    case Category(es) => forall i :: 0 <= i < |es| ==> TypedNode(es[i].1, path + [es[i].0])
    case FunList(fs) => forall i :: 0 <= i < |fs| ==> Tagged(fs[i], path)
    case RawNode(_) => true
  }

  predicate TypedTree(t: Tree, path: seq<string>)
  {
    forall i :: 0 <= i < |t| ==> TypedNode(t[i].1, path + [t[i].0])
  }

  /** The dictionary a study starts from holds no Function at all. */
  lemma SkeletonTyped()
    ensures TypedTree(Skeleton, [])
  {
    var hyd := Category([("KFns", FunList([])), ("VolWCFns", FunList([]))]);
    assert TypedNode(hyd, ["Material", "Hydraulic"]);
    assert TypedNode(Category([("Hydraulic", hyd)]), ["Material"]);
    assert [] + ["Material"] == ["Material"] && [] + ["Boundary"] == ["Boundary"];
    var bnd := Category([("BoundFns", FunList([]))]);
    assert TypedNode(bnd, ["Boundary", "Hydraulic"]);
    assert TypedNode(Category([("Hydraulic", bnd)]), ["Boundary"]);
  }

  /** Storing a well-typed value keeps the dictionary well typed. */
  lemma {:induction false} PutTyped(t: Tree, path: seq<string>, k: string, v: Node)
    requires TypedTree(t, path) && TypedNode(v, path + [k])
    ensures TypedTree(Assoc.Put(t, k, v), path)
    decreases |t|
  {
    if |t| > 0 && t[0].0 != k {
      assert TypedTree(t[1..], path) by {
        forall i | 0 <= i < |t[1..]| ensures TypedNode(t[1..][i].1, path + [t[1..][i].0]) {
          assert t[1..][i] == t[i + 1];
        }
      }
      PutTyped(t[1..], path, k, v);
      var r := Assoc.Put(t, k, v);
      assert r == [t[0]] + Assoc.Put(t[1..], k, v);
      forall i | 0 <= i < |r| ensures TypedNode(r[i].1, path + [r[i].0]) {
        if i > 0 { assert r[i] == Assoc.Put(t[1..], k, v)[i - 1]; }
      }
    }
  }

  /** A value looked up in a well-typed dictionary is well typed at its key. */
  lemma GetTyped(t: Tree, path: seq<string>, k: string)
    requires TypedTree(t, path) && Assoc.Get(t, k).Some?
    ensures TypedNode(Assoc.Get(t, k).value, path + [k])
  {
    var i :| 0 <= i < |t| && t[i] == (k, Assoc.Get(t, k).value);
  }

  /** One list extended by Functions read under its own path stays typed. */
  lemma ExtendTyped(funs: seq<Record>, fs: seq<Record>, path: seq<string>)
    requires forall i :: 0 <= i < |funs| ==> Tagged(funs[i], path)
    requires forall i :: 0 <= i < |fs| ==> Tagged(fs[i], path)
    ensures TypedNode(FunList(funs + fs), path)
  {
    forall i | 0 <= i < |funs + fs| ensures Tagged((funs + fs)[i], path) {
      if i >= |funs| { assert (funs + fs)[i] == fs[i - |funs|]; }
    }
  }

  /** `__readFunctions__` keeps the dictionary well typed: every Function
      it reads is tagged with the path of the list it goes to, and nothing
      already there changes type. */
  lemma {:induction false} ReadTreeTyped(t: Tree, cs: seq<Element>, path: seq<string>, codec: FloatCodec)
    requires TypedTree(t, path) && ReadTree(t, cs, path, codec).Ok?
    ensures TypedTree(ReadTree(t, cs, path, codec).value, path)
    decreases SizeAll(cs)
  {
    if |cs| > 0 {
      var d := cs[0];
      assert SizeAll(cs) == Size(d) + SizeAll(cs[1..]);
      var cur: Option<Node> := Assoc.Get(t, d.tag);
      var t2: Tree;
      match StepFor(cur) {
        case Keep =>
          t2 := Assoc.Put(t, d.tag, RawNode(d));
          PutTyped(t, path, d.tag, RawNode(d));
        case Recurse =>
          GetTyped(t, path, d.tag);
          var sub := ReadTree(cur.value.entries, d.children, path + [d.tag], codec);
          assert sub.Ok?;
          ReadTreeTyped(cur.value.entries, d.children, path + [d.tag], codec);
          t2 := Assoc.Put(t, d.tag, Category(sub.value));
          PutTyped(t, path, d.tag, Category(sub.value));
        case Extend =>
          GetTyped(t, path, d.tag);
          var fs := ReadFuns(d.children, path + [d.tag], codec);
          assert fs.Ok?;
          ExtendTyped(cur.value.funs, fs.value, path + [d.tag]);
          t2 := Assoc.Put(t, d.tag, FunList(cur.value.funs + fs.value));
          PutTyped(t, path, d.tag, FunList(cur.value.funs + fs.value));
        case Drop =>
          t2 := t;
      }
      assert ReadTree(t, cs, path, codec) == ReadTree(t2, cs[1..], path, codec);
      ReadTreeTyped(t2, cs[1..], path, codec);
    }
  }

  /** The Functions a well-typed node lists all carry a `Types` list that
      extends the node's own path. */
  predicate Below(f: Record, path: seq<string>)
  {
    f.FunRec? && Assoc.Get(f.data, "Types").Some? && Assoc.Get(f.data, "Types").value.Names? &&
    |path| <= |Assoc.Get(f.data, "Types").value.names| &&
    Assoc.Get(f.data, "Types").value.names[..|path|] == path
  }

  lemma {:induction false} FlattenNodeBelow(n: Node, path: seq<string>)
    requires TypedNode(n, path)
    ensures forall i :: 0 <= i < |FlattenNode(n)| ==> Below(FlattenNode(n)[i], path)
    decreases n, 1
  {
    match n
    case Category(_) =>
      FlattenEntriesBelow(n, 0, path);
    case FunList(fs) =>
      forall i | 0 <= i < |fs| ensures Below(fs[i], path) {
        assert path[..|path|] == path;
      }
    case RawNode(_) =>
  }

  lemma {:induction false} FlattenEntriesBelow(n: Node, i: nat, path: seq<string>)
    requires n.Category? && i <= |n.entries| && TypedNode(n, path)
    ensures forall j :: 0 <= j < |FlattenEntries(n, i)| ==>
      Below(FlattenEntries(n, i)[j], path) && |Assoc.Get(FlattenEntries(n, i)[j].data, "Types").value.names| > |path|
    decreases n, 0, |n.entries| - i
  {
    if i < |n.entries| {
      var key := n.entries[i].0;
      var head := FlattenNode(n.entries[i].1);
      FlattenNodeBelow(n.entries[i].1, path + [key]);
      FlattenEntriesBelow(n, i + 1, path);
      var rest := FlattenEntries(n, i + 1);
      forall j | 0 <= j < |head + rest|
        ensures Below((head + rest)[j], path) && |Assoc.Get((head + rest)[j].data, "Types").value.names| > |path|
      {
        if j < |head| {
          var f := head[j];
          assert Below(f, path + [key]);
          var ns := Assoc.Get(f.data, "Types").value.names;
          assert ns[..|path|] == (path + [key])[..|path|] == path;
        } else {
          assert (head + rest)[j] == rest[j - |head|];
        }
      }
    }
  }

  /** What `showFunctions` relies on: every Function `study["Functions"]`
      lists has a `Types` list of key names, and it is never empty. */
  lemma FunctionListTyped(t: Tree)
    requires TypedTree(t, [])
    ensures forall i :: 0 <= i < |FunctionList(t)| ==>
      var f := FunctionList(t)[i];
      f.FunRec? && Assoc.Get(f.data, "Types").Some? && Assoc.Get(f.data, "Types").value.Names? &&
      |Assoc.Get(f.data, "Types").value.names| > 0
  {
    FlattenEntriesBelow(Category(t), 0, []);
  }

  /** An element whose tag is new at its level is stored as it is, at the
      end of the dictionary. */
  lemma UnknownKept(t: Tree, d: Element, path: seq<string>, codec: FloatCodec)
    requires !Assoc.HasKey(t, d.tag)
    ensures ReadTree(t, [d], path, codec) == Ok(t + [(d.tag, RawNode(d))])
  {
    assert SizeAll([d]) == Size(d) + SizeAll([d][1..]);
    assert [d][1..] == [];
  }

  /** A written category holds, at each position, the element its entry
      writes. */
  lemma {:induction false} WriteEntriesAt(n: Node, i: nat, j: nat, codec: FloatCodec)
    requires n.Category? && i <= j < |n.entries| && WriteEntries(n, i, codec).Ok?
    ensures WriteNode(n.entries[j].0, n.entries[j].1, codec).Ok?
    ensures WriteEntries(n, i, codec).value[j - i] == WriteNode(n.entries[j].0, n.entries[j].1, codec).value
    decreases j - i
  {
    var e := WriteNode(n.entries[i].0, n.entries[i].1, codec);
    var rest := WriteEntries(n, i + 1, codec);
    assert e.Ok? && rest.Ok? && WriteEntries(n, i, codec) == Ok([e.value] + rest.value);
    if i < j {
      WriteEntriesAt(n, i + 1, j, codec);
      assert ([e.value] + rest.value)[j - i] == rest.value[j - (i + 1)];
    }
  }

  /** `__writeFunctions__` appends a stored element as it is, at its
      position in the dictionary. */
  lemma WriteTreeRaw(t: Tree, i: nat, codec: FloatCodec)
    requires i < |t| && t[i].1.RawNode? && WriteTree(t, codec).Ok?
    ensures WriteTree(t, codec).value[i] == t[i].1.e
  {
    WriteEntriesAt(Category(t), 0, i, codec);
  }

  /** So an element of the section that the dictionary does not know
      survives a read followed by a write, as the last element written. */
  lemma UnknownRewritten(t: Tree, d: Element, codec: FloatCodec)
    requires !Assoc.HasKey(t, d.tag)
    requires WriteTree(t + [(d.tag, RawNode(d))], codec).Ok?
    ensures ReadTree(t, [d], [], codec) == Ok(t + [(d.tag, RawNode(d))])
    ensures WriteTree(t + [(d.tag, RawNode(d))], codec).value[|t|] == d
  {
    UnknownKept(t, d, [], codec);
    WriteTreeRaw(t + [(d.tag, RawNode(d))], |t|, codec);
  }

  // ---------------------------------------------------------------------
  // Reading back a written section

  /** Every Function of a list, written as an item under the key of the
      list, reads back as the same Function under the same key path. */
  predicate Rereads(fs: seq<Record>, path: seq<string>, codec: FloatCodec)
    requires |path| > 0
    decreases |fs|
  {
    |fs| == 0 ||
    (var w := Marshal.WriteRecord(fs[0], ItemTag(path[|path| - 1]), codec);
     w.Ok? && ReadFun(w.value.0, path, codec) == Ok(fs[0]) && Rereads(fs[1..], path, codec))
  }

  /** The dictionary `tn`, at key path `path`, can be read back into the
      dictionary `sn` it started from: the same keys at the same
      positions, the lists empty in `sn` and holding rereadable Functions
      in `tn`, categories alike all the way down, and after the keys of
      `sn` only elements stored under their own tags; no key twice. */
  predicate Fits(sn: Node, tn: Node, path: seq<string>, codec: FloatCodec)
    decreases sn
  {
    match sn
    case Category(ses) =>
      tn.Category? && |ses| <= |tn.entries| && Assoc.Unique(tn.entries) &&
      (forall i :: 0 <= i < |ses| ==> ses[i].0 == tn.entries[i].0 && Fits(ses[i].1, tn.entries[i].1, path + [ses[i].0], codec)) &&
      (forall i :: |ses| <= i < |tn.entries| ==> tn.entries[i].1.RawNode? && tn.entries[i].1.e.tag == tn.entries[i].0)
    case FunList(sfs) =>
      sfs == [] && tn.FunList? && |path| > 0 && Rereads(tn.funs, path, codec)
    case RawNode(_) => false
  }

  /** What the reading loop has built after the first `j` written entries:
      those entries, then the rest of the dictionary it started from. */
  function Acc(s: Tree, t: Tree, j: nat): Tree
    requires |s| <= |t| && j <= |t|
  {
    if j <= |s| then t[..j] + s[j..] else t[..j]
  }

  /** Reading the entry at position `j` looks up what the starting
      dictionary holds there, and storing the entry moves on to `j + 1`. */
  lemma AccStep(s: Tree, t: Tree, j: nat)
    requires |s| <= |t| && j < |t| && Assoc.Unique(t)
    requires forall i :: 0 <= i < |s| ==> s[i].0 == t[i].0
    ensures Assoc.Get(Acc(s, t, j), t[j].0) == if j < |s| then Some(s[j].1) else None
    ensures Assoc.Put(Acc(s, t, j), t[j].0, t[j].1) == Acc(s, t, j + 1)
  {
    if j < |s| {
      assert Acc(s, t, j) == t[..j] + s[j..] && Acc(s, t, j + 1) == t[..j + 1] + s[j + 1..];
      AccReplace(s, t, j);
    } else {
      assert j == |s| ==> t[..j] + s[j..] == t[..j];
      assert Acc(s, t, j) == t[..j] && Acc(s, t, j + 1) == t[..j + 1];
      AccAppend(s, t, j);
    }
  }

  lemma AccReplace(s: Tree, t: Tree, j: nat)
    requires |s| <= |t| && j < |s| && Assoc.Unique(t)
    requires forall i :: 0 <= i < |s| ==> s[i].0 == t[i].0
    ensures Assoc.Get(t[..j] + s[j..], t[j].0) == Some(s[j].1)
    ensures Assoc.Put(t[..j] + s[j..], t[j].0, t[j].1) == t[..j + 1] + s[j + 1..]
  {
    var a := t[..j] + s[j..];
    AccUnique(s, t, j);
    Assoc.GetAt(a, j);
    Assoc.PutAt(a, j, t[j].1);
    Splice(s, t, j);
  }

  /** Midway, the keys are still those of the written dictionary. */
  lemma AccUnique(s: Tree, t: Tree, j: nat)
    requires |s| <= |t| && j < |s| && Assoc.Unique(t)
    requires forall i :: 0 <= i < |s| ==> s[i].0 == t[i].0
    ensures Assoc.Unique(t[..j] + s[j..]) && (t[..j] + s[j..])[j] == s[j] && s[j].0 == t[j].0
  {
    var a := t[..j] + s[j..];
    assert forall i :: 0 <= i < |a| ==> a[i].0 == t[i].0;
  }

  lemma Splice(s: Tree, t: Tree, j: nat)
    requires j < |s| && j < |t|
    ensures (t[..j] + s[j..])[..j] + [(t[j].0, t[j].1)] + (t[..j] + s[j..])[j + 1..] == t[..j + 1] + s[j + 1..]
  {
    var a := t[..j] + s[j..];
    assert a[..j] == t[..j] && a[j + 1..] == s[j + 1..];
    assert t[..j] + [t[j]] == t[..j + 1];
  }

  lemma AccAppend(s: Tree, t: Tree, j: nat)
    requires |s| <= j < |t| && Assoc.Unique(t)
    ensures Assoc.Get(t[..j], t[j].0) == None
    ensures Assoc.Put(t[..j], t[j].0, t[j].1) == t[..j + 1]
  {
    assert !Assoc.HasKey(t[..j], t[j].0);
    assert t[..j] + [t[j]] == t[..j + 1];
  }

  lemma WriteFunsCons(fs: seq<Record>, tag: string, codec: FloatCodec)
    requires |fs| > 0 && Marshal.WriteRecord(fs[0], tag, codec).Ok? && WriteFuns(fs[1..], tag, codec).Ok?
    ensures WriteFuns(fs, tag, codec) == Ok([Marshal.WriteRecord(fs[0], tag, codec).value.0] + WriteFuns(fs[1..], tag, codec).value)
  {
  }

  lemma ReadFunsCons(w: Element, rest: seq<Element>, path: seq<string>, codec: FloatCodec)
    requires ReadFun(w, path, codec).Ok? && ReadFuns(rest, path, codec).Ok?
    ensures ReadFuns([w] + rest, path, codec) == Ok([ReadFun(w, path, codec).value] + ReadFuns(rest, path, codec).value)
  {
    assert ([w] + rest)[0] == w && ([w] + rest)[1..] == rest;
  }

  /** The items of a list read back as the list. */
  lemma {:induction false} FunsRoundTrip(fs: seq<Record>, path: seq<string>, codec: FloatCodec)
    requires |path| > 0 && Rereads(fs, path, codec)
    ensures WriteFuns(fs, ItemTag(path[|path| - 1]), codec).Ok?
    ensures ReadFuns(WriteFuns(fs, ItemTag(path[|path| - 1]), codec).value, path, codec) == Ok(fs)
  {
    if |fs| > 0 {
      var tag := ItemTag(path[|path| - 1]);
      FunsRoundTrip(fs[1..], path, codec);
      FunsCons(fs, path, tag, codec, Marshal.WriteRecord(fs[0], tag, codec).value.0, WriteFuns(fs[1..], tag, codec).value);
    }
  }

  /** The first item read back, then the others. */
  lemma FunsCons(fs: seq<Record>, path: seq<string>, tag: string, codec: FloatCodec, w: Element, rest: seq<Element>)
    requires |fs| > 0 && Marshal.WriteRecord(fs[0], tag, codec).Ok? && Marshal.WriteRecord(fs[0], tag, codec).value.0 == w
    requires WriteFuns(fs[1..], tag, codec) == Ok(rest)
    requires ReadFun(w, path, codec) == Ok(fs[0]) && ReadFuns(rest, path, codec) == Ok(fs[1..])
    ensures WriteFuns(fs, tag, codec) == Ok([w] + rest)
    ensures ReadFuns([w] + rest, path, codec) == Ok(fs)
  {
    WriteFunsCons(fs, tag, codec);
    ReadBackCons(fs, path, codec, w, rest);
  }

  lemma ReadBackCons(fs: seq<Record>, path: seq<string>, codec: FloatCodec, w: Element, rest: seq<Element>)
    requires |fs| > 0 && ReadFun(w, path, codec) == Ok(fs[0]) && ReadFuns(rest, path, codec) == Ok(fs[1..])
    ensures ReadFuns([w] + rest, path, codec) == Ok(fs)
  {
    ReadFunsCons(w, rest, path, codec);
    SeqCons(fs);
  }

  lemma SeqCons<T>(xs: seq<T>)
    requires |xs| > 0
    ensures [xs[0]] + xs[1..] == xs
  {
  }

  lemma EmptyAppend<T>(xs: seq<T>)
    ensures [] + xs == xs
  {
  }

  lemma ConsParts(d: Element, rest: seq<Element>)
    ensures ([d] + rest)[0] == d && ([d] + rest)[1..] == rest
    ensures SizeAll([d] + rest) == Size(d) + SizeAll(rest)
  {
    var cs := [d] + rest;
    assert cs[0] == d && cs[1..] == rest;
  }

  /** A category or list written under the last key of its path reads back
      into what it was, from the value the dictionary started with. */
  lemma {:induction false} NodeRoundTrip(sn: Node, tn: Node, path: seq<string>, codec: FloatCodec)
    requires |path| > 0 && Fits(sn, tn, path, codec)
    ensures WriteNode(path[|path| - 1], tn, codec).Ok?
    ensures sn.Category? ==> ReadTree(sn.entries, WriteNode(path[|path| - 1], tn, codec).value.children, path, codec) == Ok(tn.entries)
    ensures sn.FunList? ==> ReadFuns(WriteNode(path[|path| - 1], tn, codec).value.children, path, codec) == Ok(tn.funs)
    decreases sn, 1
  {
    match sn
    case Category(ses) =>
      EntriesRoundTrip(sn, tn, 0, path, codec);
      assert Acc(ses, tn.entries, 0) == ses;
    case FunList(_) =>
      FunsRoundTrip(tn.funs, path, codec);
  }

  /** The written entries of a category from position `j` on read back,
      from what the loop has built so far, into the whole category. */
  lemma {:induction false} EntriesRoundTrip(sn: Node, tn: Node, j: nat, path: seq<string>, codec: FloatCodec)
    requires sn.Category? && Fits(sn, tn, path, codec) && j <= |tn.entries|
    ensures WriteEntries(tn, j, codec).Ok?
    ensures ReadTree(Acc(sn.entries, tn.entries, j), WriteEntries(tn, j, codec).value, path, codec) == Ok(tn.entries)
    decreases sn, 0, |tn.entries| - j
  {
    var s := sn.entries;
    var t := tn.entries;
    if j == |t| {
      AccEnd(s, t);
    } else {
      FitsAt(sn, tn, j, path, codec);
      if j < |s| {
        FitsShape(s[j].1, t[j].1, path + [t[j].0], codec);
        NodeRoundTrip(s[j].1, t[j].1, path + [t[j].0], codec);
      }
      EntriesRoundTrip(sn, tn, j + 1, path, codec);
      EntryStep(sn, tn, j, path, codec);
    }
  }

  /** Reading the written entry at position `j` turns what the loop has
      built after `j` entries into what it has built after `j + 1`. */
  lemma EntryStep(sn: Node, tn: Node, j: nat, path: seq<string>, codec: FloatCodec)
    requires sn.Category? && Fits(sn, tn, path, codec) && j < |tn.entries|
    requires WriteEntries(tn, j + 1, codec).Ok?
    requires j < |sn.entries| ==>
      var key := tn.entries[j].0;
      var w := WriteNode(key, tn.entries[j].1, codec);
      w.Ok? &&
      (sn.entries[j].1.Category? ==> tn.entries[j].1.Category? && ReadTree(sn.entries[j].1.entries, w.value.children, path + [key], codec) == Ok(tn.entries[j].1.entries)) &&
      (sn.entries[j].1.FunList? ==> tn.entries[j].1.FunList? && ReadFuns(w.value.children, path + [key], codec) == Ok(tn.entries[j].1.funs))
    ensures WriteEntries(tn, j, codec).Ok?
    ensures ReadTree(Acc(sn.entries, tn.entries, j), WriteEntries(tn, j, codec).value, path, codec) ==
            ReadTree(Acc(sn.entries, tn.entries, j + 1), WriteEntries(tn, j + 1, codec).value, path, codec)
  {
    var s := sn.entries;
    var t := tn.entries;
    var key := t[j].0;
    var n := t[j].1;
    FitsAt(sn, tn, j, path, codec);
    if j < |s| {
      FitsShape(s[j].1, n, path + [key], codec);
    }
    var d := WriteNode(key, n, codec).value;
    var rest := WriteEntries(tn, j + 1, codec).value;
    WriteEntriesCons(tn, j, codec);
    AccStep(s, t, j);
    ReadEntryStep(Acc(s, t, j), d, rest, path, codec, s, t, j);
  }

  /** What `Fits` says of one entry of a category. */
  lemma FitsAt(sn: Node, tn: Node, j: nat, path: seq<string>, codec: FloatCodec)
    requires sn.Category? && Fits(sn, tn, path, codec) && j < |tn.entries|
    ensures tn.Category? && |sn.entries| <= |tn.entries| && Assoc.Unique(tn.entries)
    ensures forall i :: 0 <= i < |sn.entries| ==> sn.entries[i].0 == tn.entries[i].0
    ensures j < |sn.entries| ==> Fits(sn.entries[j].1, tn.entries[j].1, path + [tn.entries[j].0], codec)
    ensures j >= |sn.entries| ==> tn.entries[j].1.RawNode? && tn.entries[j].1.e.tag == tn.entries[j].0
  {
  }

  lemma FitsShape(sn: Node, tn: Node, path: seq<string>, codec: FloatCodec)
    requires Fits(sn, tn, path, codec)
    ensures !sn.RawNode?
    ensures sn.Category? ==> tn.Category?
    ensures sn.FunList? ==> sn.funs == [] && tn.FunList?
  {
  }

  lemma AccEnd(s: Tree, t: Tree)
    requires |s| <= |t|
    ensures Acc(s, t, |t|) == t
  {
    assert t[..|t|] == t;
  }

  lemma WriteEntriesCons(n: Node, j: nat, codec: FloatCodec)
    requires n.Category? && j < |n.entries|
    requires WriteNode(n.entries[j].0, n.entries[j].1, codec).Ok? && WriteEntries(n, j + 1, codec).Ok?
    ensures WriteEntries(n, j, codec) == Ok([WriteNode(n.entries[j].0, n.entries[j].1, codec).value] + WriteEntries(n, j + 1, codec).value)
  {
  }

  /** One step of the reading loop over a written entry. */
  lemma ReadEntryStep(acc: Tree, d: Element, rest: seq<Element>, path: seq<string>, codec: FloatCodec, s: Tree, t: Tree, j: nat)
    requires |s| <= |t| && j < |t| && acc == Acc(s, t, j)
    requires WriteNode(t[j].0, t[j].1, codec) == Ok(d) && d.tag == t[j].0
    requires Assoc.Get(acc, t[j].0) == if j < |s| then Some(s[j].1) else None
    requires j < |s| ==> !s[j].1.RawNode?
    requires j < |s| && s[j].1.Category? ==> t[j].1.Category? && ReadTree(s[j].1.entries, d.children, path + [t[j].0], codec) == Ok(t[j].1.entries)
    requires j < |s| && s[j].1.FunList? ==> s[j].1.funs == [] && t[j].1.FunList? && ReadFuns(d.children, path + [t[j].0], codec) == Ok(t[j].1.funs)
    requires j >= |s| ==> t[j].1.RawNode? && d == t[j].1.e
    ensures ReadTree(acc, [d] + rest, path, codec) == ReadTree(Assoc.Put(acc, t[j].0, t[j].1), rest, path, codec)
  {
    if j >= |s| {
      ReadKeep(acc, d, rest, path, codec);
    } else if s[j].1.Category? {
      ReadRecurse(acc, d, rest, path, codec, s[j].1.entries, t[j].1.entries);
    } else {
      ReadExtend(acc, d, rest, path, codec, t[j].1.funs);
    }
  }

  /** A tag new at this level stores the element as it is. */
  lemma ReadKeep(acc: Tree, d: Element, rest: seq<Element>, path: seq<string>, codec: FloatCodec)
    requires Assoc.Get(acc, d.tag) == None
    ensures ReadTree(acc, [d] + rest, path, codec) == ReadTree(Assoc.Put(acc, d.tag, RawNode(d)), rest, path, codec)
  {
    ConsParts(d, rest);
  }

  /** A tag naming a category reads the element's children into it. */
  lemma ReadRecurse(acc: Tree, d: Element, rest: seq<Element>, path: seq<string>, codec: FloatCodec, es: Tree, sub: Tree)
    requires Assoc.Get(acc, d.tag) == Some(Category(es)) && ReadTree(es, d.children, path + [d.tag], codec) == Ok(sub)
    ensures ReadTree(acc, [d] + rest, path, codec) == ReadTree(Assoc.Put(acc, d.tag, Category(sub)), rest, path, codec)
  {
    ConsParts(d, rest);
  }

  /** A tag naming an empty list reads the element's children as its
      Functions. */
  lemma ReadExtend(acc: Tree, d: Element, rest: seq<Element>, path: seq<string>, codec: FloatCodec, fs: seq<Record>)
    requires Assoc.Get(acc, d.tag) == Some(FunList([])) && ReadFuns(d.children, path + [d.tag], codec) == Ok(fs)
    ensures ReadTree(acc, [d] + rest, path, codec) == ReadTree(Assoc.Put(acc, d.tag, FunList(fs)), rest, path, codec)
  {
    ConsParts(d, rest);
    EmptyAppend(fs);
  }

  /** `__writeFunctions__` followed by `__readFunctions__` into the
      dictionary a study starts from gives back the dictionary written,
      and so the same list of Functions. */
  lemma TreeRoundTrip(s: Tree, t: Tree, codec: FloatCodec)
    requires Fits(Category(s), Category(t), [], codec)
    ensures WriteTree(t, codec).Ok?
    ensures ReadTree(s, WriteTree(t, codec).value, [], codec) == Ok(t)
    ensures FunctionList(ReadTree(s, WriteTree(t, codec).value, [], codec).value) == FunctionList(t)
  {
    EntriesRoundTrip(Category(s), Category(t), 0, [], codec);
    assert Acc(s, t, 0) == s;
  }
}
