/** The `functions` dictionary of a study: a fixed skeleton of categories
    whose leaves are lists of Function objects, filled from the Functions
    section, written back to it, and flattened for lookup. */
module FunctionTrees {
  import opened Wrappers
  import opened Xml
  import opened Schema
  import opened Values
  import Assoc
  import Text
  import Marshal

  /** One value of the dictionary: a nested category, a list of Function
      objects, or an element of the section kept as it was read. */
  datatype Node =
    | Category(entries: seq<(string, Node)>)
    | FunList(funs: seq<Record>)
    | RawNode(e: Element)

  /** The dictionary itself, in insertion order. */
  type Tree = seq<(string, Node)>

  /** The dictionary a fresh study starts from. */
  const Skeleton: Tree := [
    ("Material", Category([("Hydraulic", Category([("KFns", FunList([])), ("VolWCFns", FunList([]))]))])),
    ("Boundary", Category([("Hydraulic", Category([("BoundFns", FunList([]))]))]))]

  // ---------------------------------------------------------------------
  // Reading

  /** `Function(infun)` followed by `fun.data["Types"] = path`. */
  function ReadFun(e: Element, path: seq<string>, codec: FloatCodec): (r: Result<Record>)
    ensures r.Ok? ==> Tagged(r.value, path)
    ensures r.Ok? <==> Marshal.ReadRecord(Function, e, codec).Ok?
  {
    var f :- Marshal.ReadRecord(Function, e, codec);
    Ok(FunRec(Assoc.Put(f.data, "Types", Names(path)), f.other, f.funType, f.funOptions))
  }

  /** One Function per child of a list category, whatever the child's tag. */
  function ReadFuns(cs: seq<Element>, path: seq<string>, codec: FloatCodec): (r: Result<seq<Record>>)
    ensures r.Ok? ==> |r.value| == |cs|
    ensures r.Ok? ==> forall i :: 0 <= i < |r.value| ==> Tagged(r.value[i], path)
  {
    if |cs| == 0 then Ok([])
    else
      var f :- ReadFun(cs[0], path, codec);
      var rest :- ReadFuns(cs[1..], path, codec);
      ConsTagged(f, rest, path);
      Ok([f] + rest)
  }

  /** Every Function of a list is tagged with the list's key path. */
  predicate Tagged(f: Record, path: seq<string>)
  {
    f.FunRec? && Assoc.Get(f.data, "Types") == Some(Names(path))
  }

  lemma ConsTagged(f: Record, rest: seq<Record>, path: seq<string>)
    requires Tagged(f, path) && forall i :: 0 <= i < |rest| ==> Tagged(rest[i], path)
    ensures forall i :: 0 <= i < |[f] + rest| ==> Tagged(([f] + rest)[i], path)
  {
    forall i | 0 <= i < |[f] + rest| ensures Tagged(([f] + rest)[i], path) {
      if i > 0 { assert ([f] + rest)[i] == rest[i - 1]; }
    }
  }

  /** The category a child of the section goes to, given the value stored
      under its tag. */
  datatype Step = Keep | Recurse | Extend | Drop

  function StepFor(cur: Option<Node>): Step
  {
    if cur.None? then Keep
    else if cur.value.Category? then Recurse
    else if cur.value.FunList? then Extend
    else Drop
  }

  /** `__readFunctions__`: each child of the section, in order, is kept as a
      raw element when its tag is new at this level, descended into when its
      tag names a category, and read as Functions tagged with the key path
      when its tag names a list. A tag already holding a raw element drops
      the child. */
  function ReadTree(t: Tree, cs: seq<Element>, path: seq<string>, codec: FloatCodec): (r: Result<Tree>)
    ensures r.Ok? ==> forall k :: Assoc.HasKey(t, k) ==> Assoc.HasKey(r.value, k)
    decreases SizeAll(cs)
  {
    if |cs| == 0 then Ok(t)
    else
      var d := cs[0];
      assert SizeAll(cs) == Size(d) + SizeAll(cs[1..]);
      var cur: Option<Node> := Assoc.Get(t, d.tag);
      var t1: Result<Tree> :=
        match StepFor(cur)
        case Keep => Ok(Assoc.Put(t, d.tag, RawNode(d)))
        case Recurse =>
          (match ReadTree(cur.value.entries, d.children, path + [d.tag], codec)
           case Err(err) => Err(err)
           case Ok(sub) => Ok(Assoc.Put(t, d.tag, Category(sub))))
        case Extend =>
          (match ReadFuns(d.children, path + [d.tag], codec)
           case Err(err) => Err(err)
           case Ok(fs) => Ok(Assoc.Put(t, d.tag, FunList(cur.value.funs + fs))))
        case Drop => Ok(t);
      match t1
      case Err(err) => Err(err)
      case Ok(t2) =>
        assert forall k :: Assoc.HasKey(t, k) ==> Assoc.HasKey(t2, k) by {
          forall k | Assoc.HasKey(t, k) ensures Assoc.HasKey(t2, k) {
            assert k != d.tag ==> Assoc.Get(t2, k) == Assoc.Get(t, k);
          }
        }
        ReadTree(t2, cs[1..], path, codec)
  }

  // ---------------------------------------------------------------------
  // Writing

  /** The tag of one list item: the list's key without its last character
      (`KFns` gives `KFn`). */
  function ItemTag(key: string): string
  {
    Text.DropLast(key)
  }

  /** `fun.__write__(sub_fun)` for every Function of a list, in order. */
  function WriteFuns(fs: seq<Record>, tag: string, codec: FloatCodec): (r: Result<seq<Element>>)
    ensures r.Ok? ==> |r.value| == |fs|
    ensures r.Ok? ==> forall i :: 0 <= i < |fs| ==> r.value[i].tag == tag
  {
    if |fs| == 0 then Ok([])
    else
      var w :- Marshal.WriteRecord(fs[0], tag, codec);
      var rest :- WriteFuns(fs[1..], tag, codec);
      Ok([w.0] + rest)
  }

  /** The elements `__writeFunctions__` appends for one entry: a category
      becomes an element holding its own entries, a list a `Len`-prefixed
      element of items, and a raw element is appended as it is. */
  function WriteNode(key: string, n: Node, codec: FloatCodec): (r: Result<Element>)
    ensures r.Ok? && n.RawNode? ==> r.value == n.e
    ensures r.Ok? && !n.RawNode? ==> r.value.tag == key && r.value.text.None?
    ensures r.Ok? && n.Category? ==> r.value.attrs == [] && |r.value.children| == |n.entries|
    ensures r.Ok? && n.FunList? ==>
      r.value.attrs == [("Len", Text.IntStr(|n.funs|))] && |r.value.children| == |n.funs| &&
      forall i :: 0 <= i < |n.funs| ==> r.value.children[i].tag == ItemTag(key)
    ensures n.RawNode? ==> r.Ok?
    decreases n, 1
  {
    match n
    case Category(_) =>
      (match WriteEntries(n, 0, codec)
       case Err(err) => Err(err)
       case Ok(cs) => Ok(Element(key, [], None, cs)))
    case FunList(fs) =>
      (match WriteFuns(fs, ItemTag(key), codec)
       case Err(err) => Err(err)
       case Ok(cs) => Ok(Counted(key, cs)))
    case RawNode(e) => Ok(e)
  }

  /** The entries of a category from position `i` on, in insertion order. */
  function WriteEntries(n: Node, i: nat, codec: FloatCodec): (r: Result<seq<Element>>)
    requires n.Category? && i <= |n.entries|
    ensures r.Ok? ==> |r.value| == |n.entries| - i
    decreases n, 0, |n.entries| - i
  {
    if i == |n.entries| then Ok([])
    else
      var e :- WriteNode(n.entries[i].0, n.entries[i].1, codec);
      var rest :- WriteEntries(n, i + 1, codec);
      Ok([e] + rest)
  }

  /** The children of the Functions section. */
  function WriteTree(t: Tree, codec: FloatCodec): (r: Result<seq<Element>>)
    ensures r.Ok? ==> |r.value| == |t|
  {
    WriteEntries(Category(t), 0, codec)
  }

  // ---------------------------------------------------------------------
  // Flattening

  /** The Functions of a node, depth first, in insertion order. */
  function FlattenNode(n: Node): seq<Record>
    decreases n, 1
  {
    match n
    case Category(_) => FlattenEntries(n, 0)
    case FunList(fs) => fs
    case RawNode(_) => []
  }

  function FlattenEntries(n: Node, i: nat): seq<Record>
    requires n.Category? && i <= |n.entries|
    decreases n, 0, |n.entries| - i
  {
    if i == |n.entries| then [] else FlattenNode(n.entries[i].1) + FlattenEntries(n, i + 1)
  }

  /** The Functions of a tree, depth first, in insertion order. */
  function FunctionList(t: Tree): seq<Record>
  {
    FlattenEntries(Category(t), 0)
  }

  /** `__functionToList__(d)`: the Functions of the tree appended to the
      default list, which every call shares, and that same list returned. */
  function FunctionToList(t: Tree, shared: seq<Record>): seq<Record>
  {
    shared + FunctionList(t)
  }
}
