/** `Function`: a tabulated function. After a read, the `Points` list
    becomes a numeric table and the `Function` descriptor text
    `Type(k1=v1,k2=v2,...)` is parsed into a type name and an options
    dictionary; before a write the table is turned back into `Point`
    elements. */
module Functions {
  import opened Wrappers
  import opened Xml
  import opened Values
  import Assoc
  import Text
  import Seqs

  // ---------------------------------------------------------------------
  // The descriptor string

  /** `x.split('=')` turned into a dictionary entry `x[0] : x[1]`; a piece
      without `=` has no second part (IndexError). Parts after a second
      `=` are dropped. */
  function ParseOption(piece: string): (r: Result<(string, string)>)
    ensures r.Ok? <==> '=' in piece
    ensures r.Ok? ==> |Text.Split(piece, '=')| >= 2 && r.value == (Text.Split(piece, '=')[0], Text.Split(piece, '=')[1])
  {
    // `split` gives a single piece exactly when there is no `=`.
    if '=' !in piece then
      Text.SplitNone(piece, '=');
      Err(IndexError("list index out of range"))
    else
      Text.SplitAtLeastTwo(piece, '=');
      var kv := Text.Split(piece, '=');
      Ok((kv[0], kv[1]))
  }

  /** The dictionary comprehension over the pieces, later keys overwriting
      earlier ones. */
  function ParsePieces(pieces: seq<string>, acc: Attrs): (r: Result<Attrs>)
    ensures r.Ok? <==> forall i :: 0 <= i < |pieces| ==> '=' in pieces[i]
  {
    if |pieces| == 0 then Ok(acc)
    else
      match ParseOption(pieces[0])
      case Err(e) => Err(e)
      case Ok(kv) => ParsePieces(pieces[1..], Assoc.Put(acc, kv.0, kv.1))
  }

  /** `fun_options`: the text after the last `(`, minus its final
      character, split on `,`. */
  function ParseOptions(text: string): Result<Attrs>
  {
    ParsePieces(Text.Split(Text.DropLast(Text.LastPiece(text, '(')), ','), [])
  }

  /** `fun_type`: the text before the first `(`. */
  function FunType(text: string): string
  {
    Text.FirstPiece(text, '(')
  }

  /** The descriptor GeoStudio writes for a type and its options. */
  function Descriptor(funType: string, opts: Attrs): string
  {
    funType + "(" + Text.Join(OptionPieces(opts), ",") + ")"
  }

  function OptionPiece(kv: (string, string)): string
  {
    kv.0 + "=" + kv.1
  }

  function OptionPieces(opts: Attrs): (r: seq<string>)
    ensures |r| == |opts|
    ensures forall i :: 0 <= i < |opts| ==> r[i] == OptionPiece(opts[i])
  {
    seq(|opts|, i requires 0 <= i < |opts| => OptionPiece(opts[i]))
  }

  /** No character that delimits the descriptor's parts. */
  predicate Plain(s: string)
  {
    '(' !in s && ',' !in s && '=' !in s
  }

  lemma OptionPieceParses(k: string, v: string)
    requires Plain(k) && Plain(v)
    ensures ParseOption(OptionPiece((k, v))) == Ok((k, v))
  {
    Text.SplitConcat(k, '=', v);
    Text.SplitNone(k, '=');
    Text.SplitNone(v, '=');
    assert k + "=" + v == k + ['='] + v;
  }

  /** Every key and value of `opts` is free of delimiters. */
  predicate AllPlain(opts: Attrs)
  {
    forall i :: 0 <= i < |opts| ==> Plain(opts[i].0) && Plain(opts[i].1)
  }

  lemma {:induction false} PiecesRoundTrip(acc: Attrs, opts: Attrs)
    requires Assoc.Unique(acc + opts)
    requires AllPlain(opts)
    ensures ParsePieces(OptionPieces(opts), acc) == Ok(acc + opts)
    decreases |opts|
  {
    if |opts| == 0 {
      assert acc + opts == acc;
      assert OptionPieces(opts) == [];
    } else {
      var acc', tail := acc + [opts[0]], opts[1..];
      PiecesStep(acc, opts);
      PiecesRoundTrip(acc', tail);
      Seqs.AppendAssoc(acc, [opts[0]], tail);
      assert [opts[0]] + tail == opts;
    }
  }

  lemma PiecesStep(acc: Attrs, opts: Attrs)
    requires |opts| > 0 && Assoc.Unique(acc + opts)
    requires AllPlain(opts)
    ensures Assoc.Unique((acc + [opts[0]]) + opts[1..])
    ensures AllPlain(opts[1..])
    ensures ParsePieces(OptionPieces(opts), acc) == ParsePieces(OptionPieces(opts[1..]), acc + [opts[0]])
  {
    var ps := OptionPieces(opts);
    OptionPieceParses(opts[0].0, opts[0].1);
    assert ParseOption(ps[0]) == Ok(opts[0]);
    Assoc.PutFresh(acc, opts);
    assert ps[1..] == OptionPieces(opts[1..]);
  }

  lemma JoinedPiecesPlain(opts: Attrs)
    requires AllPlain(opts)
    ensures forall i :: 0 <= i < |OptionPieces(opts)| ==> ',' !in OptionPieces(opts)[i]
    ensures '(' !in Text.Join(OptionPieces(opts), ",")
  {
    var ps := OptionPieces(opts);
    forall i | 0 <= i < |ps| ensures ',' !in ps[i] && '(' !in ps[i] {
      assert ps[i] == opts[i].0 + "=" + opts[i].1;
    }
    JoinFree(ps, ",", '(');
  }

  lemma {:induction false} JoinFree(ps: seq<string>, sep: string, c: char)
    requires c !in sep && forall i :: 0 <= i < |ps| ==> c !in ps[i]
    ensures c !in Text.Join(ps, sep)
    decreases |ps|
  {
    if |ps| > 1 {
      JoinFree(ps[1..], sep, c);
    }
  }

  /** A descriptor with at least one option, whose parts contain no
      delimiter, parses back into its type and its options. */
  lemma DescriptorRoundTrip(funType: string, opts: Attrs)
    requires |opts| >= 1 && Assoc.Unique(opts)
    requires '(' !in funType
    requires forall i :: 0 <= i < |opts| ==> Plain(opts[i].0) && Plain(opts[i].1)
    ensures FunType(Descriptor(funType, opts)) == funType
    ensures ParseOptions(Descriptor(funType, opts)) == Ok(opts)
  {
    var j := Text.Join(OptionPieces(opts), ",");
    var d := Descriptor(funType, opts);
    assert d == funType + ['('] + (j + ")");
    JoinedPiecesPlain(opts);
    Text.FirstPieceBefore(funType, '(', j + ")");
    Text.LastPieceAfter(funType, '(', j + ")");
    Text.SplitNone(j + ")", '(');
    assert Text.LastPiece(d, '(') == j + ")";
    assert Text.DropLast(j + ")") == j;
    Text.SplitJoin(OptionPieces(opts), ',');
    assert [] + opts == opts;
    PiecesRoundTrip([], opts);
  }

  /** A descriptor without options, such as `F()`, cannot be parsed. */
  lemma NoOptionsFails(funType: string)
    requires '(' !in funType
    ensures ParseOptions(funType + "()").Err?
  {
    var d := funType + "()";
    assert d == funType + ['('] + ")";
    Text.LastPieceAfter(funType, '(', ")");
    Text.SplitNone(")", '(');
    assert Text.DropLast(")") == "";
    assert Text.Split("", ',') == [""];
  }

  // ---------------------------------------------------------------------
  // The points table

  /** Every row has `width` values: the shape of a 2-D numpy array. */
  predicate Rect(width: nat, rows: seq<seq<real>>)
  {
    forall i :: 0 <= i < |rows| ==> |rows[i]| == width
  }

  /** The attribute values of an element, in attribute order. */
  function AttrValues(a: Attrs): (r: seq<string>)
    ensures |r| == |a| && forall i :: 0 <= i < |a| ==> r[i] == a[i].1
  {
    seq(|a|, i requires 0 <= i < |a| => a[i].1)
  }

  /** `[float(y) for y in ...]`. */
  function ParseRow(vals: seq<string>, codec: FloatCodec): (r: Result<seq<real>>)
    ensures r.Ok? <==> forall i :: 0 <= i < |vals| ==> codec.parse(vals[i]).Some?
    ensures r.Ok? ==> |r.value| == |vals| && forall i :: 0 <= i < |vals| ==> Some(r.value[i]) == codec.parse(vals[i])
  {
    if |vals| == 0 then Ok([])
    else
      match codec.parse(vals[0])
      case None => Err(ValueError("could not convert string to float: " + vals[0]))
      case Some(x) =>
        match ParseRow(vals[1..], codec)
        case Err(e) => Err(e)
        case Ok(rest) =>
          assert forall i :: 1 <= i < |vals| ==> vals[1..][i - 1] == vals[i];
          Ok([x] + rest)
  }

  function ParseRows(items: seq<(string, Attrs)>, codec: FloatCodec): (r: Result<seq<seq<real>>>)
    ensures r.Ok? ==> |r.value| == |items|
    ensures r.Ok? ==> forall i :: 0 <= i < |items| ==> ParseRow(AttrValues(items[i].1), codec) == Ok(r.value[i])
  {
    if |items| == 0 then Ok([])
    else
      match ParseRow(AttrValues(items[0].1), codec)
      case Err(e) => Err(e)
      case Ok(row) =>
        match ParseRows(items[1..], codec)
        case Err(e) => Err(e)
        case Ok(rest) => Ok([row] + rest)
  }

  /** `np.array([[float(y) for y in x[1].values()] for x in points])`: one
      row per point element, holding that element's attribute values; no
      points give an empty array; rows of different lengths are rejected. */
  function PointsToTable(items: seq<(string, Attrs)>, codec: FloatCodec): (r: Result<Value>)
    ensures r.Ok? ==> r.value.Table? && |r.value.rows| == |items| && Rect(r.value.width, r.value.rows)
    ensures r.Ok? ==> forall i :: 0 <= i < |items| ==> |items[i].1| == r.value.width
  {
    match ParseRows(items, codec)
    case Err(e) => Err(e)
    case Ok(rows) =>
      if |rows| == 0 then Ok(Table(0, []))
      else if Rect(|rows[0]|, rows) then Ok(Table(|rows[0]|, rows))
      else Err(ValueError("inhomogeneous shape"))
  }

  /** `["Point", {"X": str(x), "Y": str(y)}]` for every row `x, y`; a row
      that does not hold exactly two values cannot be unpacked. */
  function TableToPoints(rows: seq<seq<real>>, codec: FloatCodec): (r: Result<seq<(string, Attrs)>>)
    ensures r.Ok? <==> forall i :: 0 <= i < |rows| ==> |rows[i]| == 2
    ensures r.Ok? ==> |r.value| == |rows|
    ensures r.Ok? ==> forall i :: 0 <= i < |rows| ==> r.value[i].0 == "Point" && Assoc.Keys(r.value[i].1) == ["X", "Y"]
  {
    if |rows| == 0 then Ok([])
    else if |rows[0]| != 2 then Err(ValueError("too many values to unpack"))
    else
      match TableToPoints(rows[1..], codec)
      case Err(e) => Err(e)
      case Ok(rest) =>
        var p := ("Point", [("X", codec.show(rows[0][0])), ("Y", codec.show(rows[0][1]))]);
        assert Assoc.Keys(p.1) == ["X", "Y"];
        assert forall i :: 1 <= i < |rows| ==> rows[1..][i - 1] == rows[i] && ([p] + rest)[i] == rest[i - 1];
        Ok([p] + rest)
  }

  /** Every value of the table is written as text that parses back to it. */
  predicate RowsShown(rows: seq<seq<real>>, codec: FloatCodec)
  {
    forall i, j :: 0 <= i < |rows| && 0 <= j < |rows[i]| ==> RoundTrips(codec, rows[i][j])
  }

  lemma RowsShownTail(rows: seq<seq<real>>, codec: FloatCodec)
    requires |rows| > 0 && RowsShown(rows, codec)
    ensures RowsShown(rows[1..], codec)
  {
    forall i, j | 0 <= i < |rows[1..]| && 0 <= j < |rows[1..][i]| ensures RoundTrips(codec, rows[1..][i][j]) {
      assert rows[1..][i] == rows[i + 1];
    }
  }

  /** A two-column table whose values print as text that parses back to
      them survives the write conversion and the read conversion; an empty
      table comes back as the one-dimensional empty array. */
  lemma PointsRoundTrip(rows: seq<seq<real>>, codec: FloatCodec)
    requires Rect(2, rows) && RowsShown(rows, codec)
    ensures TableToPoints(rows, codec).Ok?
    ensures PointsToTable(TableToPoints(rows, codec).value, codec) == Ok(Table(if |rows| == 0 then 0 else 2, rows))
  {
    var ps := TableToPoints(rows, codec).value;
    PointsRows(rows, codec);
  }

  lemma {:induction false} PointsRows(rows: seq<seq<real>>, codec: FloatCodec)
    requires Rect(2, rows) && RowsShown(rows, codec)
    ensures TableToPoints(rows, codec).Ok?
    ensures ParseRows(TableToPoints(rows, codec).value, codec) == Ok(rows)
  {
    if |rows| > 0 {
      RowsShownTail(rows, codec);
      PointsRows(rows[1..], codec);
      var row := rows[0];
      var a: Attrs := [("X", codec.show(row[0])), ("Y", codec.show(row[1]))];
      assert AttrValues(a) == [codec.show(row[0]), codec.show(row[1])];
      assert RoundTrips(codec, rows[0][0]) && RoundTrips(codec, rows[0][1]);
      ParseRowOk(AttrValues(a), codec, row);
      var ps := TableToPoints(rows, codec).value;
      assert ps[1..] == TableToPoints(rows[1..], codec).value;
      assert [row] + rows[1..] == rows;
    }
  }

  lemma ParseRowOk(vals: seq<string>, codec: FloatCodec, row: seq<real>)
    requires |row| == |vals| && forall i :: 0 <= i < |vals| ==> codec.parse(vals[i]) == Some(row[i])
    ensures ParseRow(vals, codec) == Ok(row)
  {
    var r := ParseRow(vals, codec);
    assert r.Ok?;
    assert r.value == row;
  }

  /** Attribute names are not kept: points with two attributes of any
      names are written back, in order, with `X` and `Y` holding their
      parsed values. */
  lemma PointNamesNotKept(items: seq<(string, Attrs)>, codec: FloatCodec)
    requires PointsToTable(items, codec).Ok?
    requires forall i :: 0 <= i < |items| ==> |items[i].1| == 2
    ensures TableToPoints(PointsToTable(items, codec).value.rows, codec).Ok?
    ensures forall i :: 0 <= i < |items| ==>
      codec.parse(items[i].1[0].1).Some? && codec.parse(items[i].1[1].1).Some? &&
      TableToPoints(PointsToTable(items, codec).value.rows, codec).value[i] ==
        ("Point", [("X", codec.show(codec.parse(items[i].1[0].1).value)), ("Y", codec.show(codec.parse(items[i].1[1].1).value))])
  {
    var rows := PointsToTable(items, codec).value.rows;
    var parsed := ParseRows(items, codec);
    assert parsed.Ok? && parsed.value == rows;
    forall i | 0 <= i < |items|
      ensures |rows[i]| == 2 && Some(rows[i][0]) == codec.parse(items[i].1[0].1) && Some(rows[i][1]) == codec.parse(items[i].1[1].1)
    {
      assert ParseRow(AttrValues(items[i].1), codec) == Ok(rows[i]);
    }
    TableToPointsAt(rows, codec);
  }

  /** The point written for each row of a two-column table. */
  lemma {:induction false} TableToPointsAt(rows: seq<seq<real>>, codec: FloatCodec)
    requires forall i :: 0 <= i < |rows| ==> |rows[i]| == 2
    ensures TableToPoints(rows, codec).Ok?
    ensures forall i :: 0 <= i < |rows| ==>
      TableToPoints(rows, codec).value[i] == ("Point", [("X", codec.show(rows[i][0])), ("Y", codec.show(rows[i][1]))])
  {
    if |rows| > 0 {
      TableToPointsAt(rows[1..], codec);
      var ps := TableToPoints(rows, codec).value;
      var rest := TableToPoints(rows[1..], codec).value;
      assert ps == [("Point", [("X", codec.show(rows[0][0])), ("Y", codec.show(rows[0][1]))])] + rest;
      forall i | 1 <= i < |rows|
        ensures ps[i] == ("Point", [("X", codec.show(rows[i][0])), ("Y", codec.show(rows[i][1]))])
      {
        assert ps[i] == rest[i - 1] && rows[1..][i - 1] == rows[i];
      }
    }
  }


  // ---------------------------------------------------------------------
  // Post-read and pre-write hooks

  /** The descriptor text of the `Function` field, when that is a string. */
  function DescriptorText(data: Fields): Option<string>
  {
    var f := Assoc.Get(data, "Function");
    if f.Some? && f.value.Text? && f.value.text.Some? then f.value.text else None
  }

  /** Points that `__initialize__` accepts: absent, None, or a point list
      that converts to a table. */
  predicate PointsReadable(data: Fields, codec: FloatCodec)
  {
    var pts := Assoc.Get(data, "Points");
    pts.None? || pts.value == Text(None) || (pts.value.Pairs? && PointsToTable(pts.value.items, codec).Ok?) ||
    (pts.value.Table? && |pts.value.rows| == 0)
  }

  /** `__initialize__` on the fields read for a Function. */
  function Init(data: Fields, other: seq<Element>, codec: FloatCodec): (r: Result<Record>)
    ensures r.Ok? ==> r.value.FunRec? && r.value.other == other
    ensures r.Ok? ==> Assoc.Keys(r.value.data) == Assoc.Keys(data)
  {
    var data1 :- ConvertPoints(data, codec);
    WithDescriptor(data1, other)
  }

  /** The first step of `__initialize__`: the point list becomes a table.
      An array already there is iterated by rows, and `x[1].values()` fails
      on the first one: IndexError when a row has fewer than two entries,
      AttributeError otherwise. An array with no rows gives `np.array([])`,
      the empty one-dimensional array. */
  function ConvertPoints(data: Fields, codec: FloatCodec): (r: Result<Fields>)
    ensures r.Ok? ==> Assoc.Keys(r.value) == Assoc.Keys(data)
  {
    var pts: Option<Value> := Assoc.Get(data, "Points");
    if pts.None? || pts.value == Text(None) then Ok(data)
    else if pts.value.Pairs? then
      match PointsToTable(pts.value.items, codec)
      case Err(e) => Err(e)
      case Ok(t) => Ok(Assoc.Put(data, "Points", t))
    else if pts.value.Table? then
      if |pts.value.rows| == 0 then Ok(Assoc.Put(data, "Points", Table(0, [])))
      else if pts.value.width < 2 then Err(IndexError("index 1 is out of bounds"))
      else Err(AttributeError("values"))
    else Err(NotModelled("Points that are neither a point list nor an array"))
  }

  /** The second step: the descriptor split into type and options. */
  function WithDescriptor(data: Fields, other: seq<Element>): (r: Result<Record>)
    ensures r.Ok? ==> r.value.FunRec? && r.value.data == data && r.value.other == other
  {
    var f: Option<Value> := Assoc.Get(data, "Function");
    if f.None? then Err(KeyError("Function"))
    else if f.value == Text(None) then Err(AttributeError("split"))
    else if !f.value.Text? then Err(NotModelled("a non-string descriptor"))
    else
      match ParseOptions(f.value.text.value)
      case Err(e) => Err(e)
      case Ok(opts) => Ok(FunRec(data, other, FunType(f.value.text.value), opts))
  }

  /** What `__initialize__` makes of the fields: it succeeds exactly when
      the points convert and the descriptor is a string whose options
      parse; Points then holds the converted table, the type and options
      are those of the descriptor, and no other field changes. An array
      with rows under Points is refused, an empty one becomes the empty
      one-dimensional array, and a missing descriptor is refused. */
  lemma InitReads(data: Fields, other: seq<Element>, codec: FloatCodec)
    ensures var r := Init(data, other, codec);
      r.Ok? <==> PointsReadable(data, codec) && DescriptorText(data).Some? && ParseOptions(DescriptorText(data).value).Ok?
    ensures var r := Init(data, other, codec);
      r.Ok? ==> r.value.funType == FunType(DescriptorText(data).value) &&
                ParseOptions(DescriptorText(data).value) == Ok(r.value.funOptions)
    ensures var r := Init(data, other, codec);
      r.Ok? ==> forall k :: k != "Points" ==> Assoc.Get(r.value.data, k) == Assoc.Get(data, k)
    ensures var r := Init(data, other, codec); var pts := Assoc.Get(data, "Points");
      r.Ok? && pts.Some? && pts.value.Pairs? ==>
        Assoc.Get(r.value.data, "Points").Some? && PointsToTable(pts.value.items, codec) == Ok(Assoc.Get(r.value.data, "Points").value)
    ensures var r := Init(data, other, codec); var pts := Assoc.Get(data, "Points");
      r.Ok? && (pts.None? || pts.value == Text(None)) ==> r.value.data == data
    ensures var r := Init(data, other, codec); var pts := Assoc.Get(data, "Points");
      r.Ok? && pts.Some? && pts.value.Table? ==> Assoc.Get(r.value.data, "Points") == Some(Table(0, []))
    ensures var pts := Assoc.Get(data, "Points");
      pts.Some? && pts.value.Table? && |pts.value.rows| > 0 ==>
        Init(data, other, codec) == Err(if pts.value.width < 2 then IndexError("index 1 is out of bounds") else AttributeError("values"))
    ensures PointsReadable(data, codec) && !Assoc.HasKey(data, "Function") ==> Init(data, other, codec) == Err(KeyError("Function"))
  {
    var pts := Assoc.Get(data, "Points");
    if pts.None? || pts.value == Text(None) {
      assert ConvertPoints(data, codec) == Ok(data);
      WithDescriptorReads(data, other);
    } else if pts.value.Pairs? && PointsToTable(pts.value.items, codec).Ok? {
      var t := PointsToTable(pts.value.items, codec).value;
      var d1 := Assoc.Put(data, "Points", t);
      ConvertPair(data, pts.value.items, t, codec);
      DescriptorTextPut(data, "Points", t);
      WithDescriptorReads(d1, other);
      assert Assoc.HasKey(d1, "Function") == Assoc.HasKey(data, "Function");
    } else if pts.value.Table? {
      ConvertTable(data, pts.value, codec);
      if |pts.value.rows| == 0 {
        var d1 := Assoc.Put(data, "Points", Table(0, []));
        DescriptorTextPut(data, "Points", Table(0, []));
        WithDescriptorReads(d1, other);
        assert Assoc.HasKey(d1, "Function") == Assoc.HasKey(data, "Function");
      }
    } else {
      assert ConvertPoints(data, codec).Err?;
    }
  }

  lemma WithDescriptorReads(data: Fields, other: seq<Element>)
    ensures WithDescriptor(data, other).Ok? <==> DescriptorText(data).Some? && ParseOptions(DescriptorText(data).value).Ok?
    ensures var r := WithDescriptor(data, other);
      r.Ok? ==> r.value.funType == FunType(DescriptorText(data).value) &&
                ParseOptions(DescriptorText(data).value) == Ok(r.value.funOptions)
    ensures !Assoc.HasKey(data, "Function") ==> WithDescriptor(data, other) == Err(KeyError("Function"))
  {
  }

  /** `__deinitialize__`: the table back into a point list. */
  function Deinit(data: Fields, codec: FloatCodec): (r: Result<Fields>)
    ensures r.Ok? ==> Assoc.Keys(r.value) == Assoc.Keys(data)
    ensures r.Ok? ==> FieldsSize(r.value) == FieldsSize(data)
  {
    var pts: Option<Value> := Assoc.Get(data, "Points");
    if pts.None? || pts.value == Text(None) then Ok(data)
    else if pts.value.Table? then
      match TableToPoints(pts.value.rows, codec)
      case Err(e) => Err(e)
      case Ok(ps) =>
        PutKeepsSize(data, "Points", Pairs(ps));
        Ok(Assoc.Put(data, "Points", Pairs(ps)))
    else Err(NotModelled("Points that are not an array"))
  }

  /** What `__deinitialize__` writes: it succeeds exactly when Points is
      absent, None, or a table of two-value rows; a table becomes its
      `Point` list, and no other field changes. */
  lemma DeinitWrites(data: Fields, codec: FloatCodec)
    ensures var pts := Assoc.Get(data, "Points");
      Deinit(data, codec).Ok? <==> pts.None? || pts.value == Text(None) || (pts.value.Table? && Rect(2, pts.value.rows))
    ensures var r := Deinit(data, codec);
      r.Ok? ==> forall k :: k != "Points" ==> Assoc.Get(r.value, k) == Assoc.Get(data, k)
    ensures var pts := Assoc.Get(data, "Points");
      pts.None? || pts.value == Text(None) ==> Deinit(data, codec) == Ok(data)
    ensures var r := Deinit(data, codec); var pts := Assoc.Get(data, "Points");
      r.Ok? && pts.Some? && pts.value.Table? ==>
        TableToPoints(pts.value.rows, codec).Ok? && Assoc.Get(r.value, "Points") == Some(Pairs(TableToPoints(pts.value.rows, codec).value))
  {
  }

  /** The points a Function holds between a read and a write: absent,
      None, or a two-column table (the empty table has width 0, as numpy
      makes it). */
  predicate PointsWritable(data: Fields)
  {
    var pts := Assoc.Get(data, "Points");
    pts.None? || pts.value == Text(None) ||
    (pts.value.Table? && Rect(2, pts.value.rows) && pts.value.width == (if |pts.value.rows| == 0 then 0 else 2))
  }

  /** A Function record as a read leaves it: writable points, and a type
      and options that are those of its descriptor. */
  predicate Settled(f: Record)
  {
    f.FunRec? && PointsWritable(f.data) && DescriptorText(f.data).Some? &&
    FunType(DescriptorText(f.data).value) == f.funType && ParseOptions(DescriptorText(f.data).value) == Ok(f.funOptions)
  }

  /** The values of a stored point table print as text that parses back
      to them. */
  predicate PointsShown(data: Fields, codec: FloatCodec)
  {
    var pts := Assoc.Get(data, "Points");
    pts.Some? && pts.value.Table? ==> RowsShown(pts.value.rows, codec)
  }

  /** `__deinitialize__` followed by `__initialize__` gives a settled
      Function back unchanged, when its point values print as text that
      parses back to them. */
  lemma DeinitInit(f: Record, codec: FloatCodec)
    requires Settled(f) && PointsShown(f.data, codec)
    ensures Deinit(f.data, codec).Ok?
    ensures Init(Deinit(f.data, codec).value, f.other, codec) == Ok(f)
  {
    var pts := Assoc.Get(f.data, "Points");
    if pts.Some? && pts.value.Table? {
      DeinitInitTable(f, codec);
    } else {
      assert Deinit(f.data, codec) == Ok(f.data);
      InitKeepsPoints(f.data, f.other, codec);
    }
  }

  lemma InitKeepsPoints(data: Fields, other: seq<Element>, codec: FloatCodec)
    requires var pts := Assoc.Get(data, "Points"); pts.None? || pts.value == Text(None)
    requires DescriptorText(data).Some? && ParseOptions(DescriptorText(data).value).Ok?
    ensures Init(data, other, codec) == Ok(FunRec(data, other, FunType(DescriptorText(data).value), ParseOptions(DescriptorText(data).value).value))
  {
  }

  lemma DeinitInitTable(f: Record, codec: FloatCodec)
    requires Settled(f) && PointsShown(f.data, codec)
    requires Assoc.Get(f.data, "Points").Some? && Assoc.Get(f.data, "Points").value.Table?
    ensures Deinit(f.data, codec).Ok?
    ensures Init(Deinit(f.data, codec).value, f.other, codec) == Ok(f)
  {
    var t := Assoc.Get(f.data, "Points").value;
    PointsRoundTrip(t.rows, codec);
    var ps := TableToPoints(t.rows, codec).value;
    var d1 := Assoc.Put(f.data, "Points", Pairs(ps));
    DeinitTable(f.data, t, codec);
    DescriptorTextPut(f.data, "Points", Pairs(ps));
    InitConverts(d1, f.other, ps, t, codec);
    Assoc.PutPut(f.data, "Points", Pairs(ps), t);
    Assoc.PutExisting(f.data, "Points", t);
  }

  lemma DeinitTable(data: Fields, t: Value, codec: FloatCodec)
    requires Assoc.Get(data, "Points") == Some(t) && t.Table? && Rect(2, t.rows)
    ensures TableToPoints(t.rows, codec).Ok?
    ensures Deinit(data, codec) == Ok(Assoc.Put(data, "Points", Pairs(TableToPoints(t.rows, codec).value)))
  {
  }

  lemma InitConverts(data: Fields, other: seq<Element>, ps: seq<(string, Attrs)>, t: Value, codec: FloatCodec)
    requires Assoc.Get(data, "Points") == Some(Pairs(ps)) && PointsToTable(ps, codec) == Ok(t)
    requires DescriptorText(data).Some? && ParseOptions(DescriptorText(data).value).Ok?
    ensures Init(data, other, codec) ==
      Ok(FunRec(Assoc.Put(data, "Points", t), other, FunType(DescriptorText(data).value), ParseOptions(DescriptorText(data).value).value))
  {
    var d1 := Assoc.Put(data, "Points", t);
    ConvertPair(data, ps, t, codec);
    DescriptorTextPut(data, "Points", t);
    WithDescriptorOk(d1, other);
  }

  lemma ConvertTable(data: Fields, t: Value, codec: FloatCodec)
    requires Assoc.Get(data, "Points") == Some(t) && t.Table?
    ensures ConvertPoints(data, codec) ==
      if |t.rows| == 0 then Ok(Assoc.Put(data, "Points", Table(0, [])))
      else Err(if t.width < 2 then IndexError("index 1 is out of bounds") else AttributeError("values"))
  {
  }

  lemma ConvertPair(data: Fields, ps: seq<(string, Attrs)>, t: Value, codec: FloatCodec)
    requires Assoc.Get(data, "Points") == Some(Pairs(ps)) && PointsToTable(ps, codec) == Ok(t)
    ensures ConvertPoints(data, codec) == Ok(Assoc.Put(data, "Points", t))
  {
  }

  lemma DescriptorTextPut(data: Fields, k: string, v: Value)
    requires k != "Function"
    ensures DescriptorText(Assoc.Put(data, k, v)) == DescriptorText(data)
  {
    assert Assoc.Get(Assoc.Put(data, k, v), "Function") == Assoc.Get(data, "Function");
  }

  lemma WithDescriptorOk(data: Fields, other: seq<Element>)
    requires DescriptorText(data).Some? && ParseOptions(DescriptorText(data).value).Ok?
    ensures WithDescriptor(data, other) ==
      Ok(FunRec(data, other, FunType(DescriptorText(data).value), ParseOptions(DescriptorText(data).value).value))
  {
  }

  /** A read whose points each carry two values leaves a settled Function.
      So the `__deinitialize__` a write runs, followed by the
      `__initialize__` of the next read, gives the first read's record
      again, when its point values print as text that parses back. */
  lemma InitSettles(data: Fields, other: seq<Element>, codec: FloatCodec)
    requires Init(data, other, codec).Ok?
    requires var pts := Assoc.Get(data, "Points");
      pts.Some? && pts.value.Pairs? ==> forall i :: 0 <= i < |pts.value.items| ==> |pts.value.items[i].1| == 2
    ensures Settled(Init(data, other, codec).value)
    ensures PointsShown(Init(data, other, codec).value.data, codec) ==>
      Deinit(Init(data, other, codec).value.data, codec).Ok? &&
      Init(Deinit(Init(data, other, codec).value.data, codec).value, other, codec) == Init(data, other, codec)
  {
    var f := Init(data, other, codec).value;
    var pts := Assoc.Get(data, "Points");
    var data1 := ConvertPoints(data, codec).value;
    assert Init(data, other, codec) == WithDescriptor(data1, other);
    WithDescriptorReads(data1, other);
    if pts.Some? && pts.value.Pairs? {
      var items := pts.value.items;
      var t := PointsToTable(items, codec).value;
      ConvertPair(data, items, t, codec);
      DescriptorTextPut(data, "Points", t);
      if |items| == 0 {
        EmptyPointsTable(items, codec);
      } else {
        assert |items[0].1| == t.width;
      }
    } else if pts.Some? && pts.value.Table? {
      assert data1 == Assoc.Put(data, "Points", Table(0, []));
      DescriptorTextPut(data, "Points", Table(0, []));
    } else {
      assert data1 == data;
    }
    if PointsShown(f.data, codec) {
      DeinitInit(f, codec);
    }
  }

  /** No points make the one-dimensional empty array. */
  lemma EmptyPointsTable(items: seq<(string, Attrs)>, codec: FloatCodec)
    requires |items| == 0
    ensures PointsToTable(items, codec) == Ok(Table(0, []))
  {
  }

  /** A Function whose descriptor has no options fails to read. */
  lemma InitNeedsOptions(data: Fields, other: seq<Element>, codec: FloatCodec, funType: string)
    requires '(' !in funType
    requires Assoc.Get(data, "Function") == Some(Text(Some(funType + "()")))
    requires !Assoc.HasKey(data, "Points")
    ensures Init(data, other, codec).Err?
  {
    NoOptionsFails(funType);
  }

  // ---------------------------------------------------------------------
  // Editing the points

  /** `getXData` / `getYData`: column `c`, IndexError past the last one. */
  function Column(width: nat, rows: seq<seq<real>>, c: nat): (r: Result<seq<real>>)
    requires Rect(width, rows)
    ensures r.Ok? <==> c < width
    ensures r.Ok? ==> |r.value| == |rows| && forall i :: 0 <= i < |rows| ==> r.value[i] == rows[i][c]
  {
    if c >= width then Err(IndexError("too many indices for array"))
    else Ok(seq(|rows|, i requires 0 <= i < |rows| => rows[i][c]))
  }

  /** `points[:, c] = values`, with numpy broadcasting: the values must
      number as many as the rows, or exactly one. */
  function SetColumn(width: nat, rows: seq<seq<real>>, c: nat, vs: seq<real>): (r: Result<seq<seq<real>>>)
    requires Rect(width, rows)
    ensures r.Ok? <==> c < width && (|vs| == |rows| || |vs| == 1)
    ensures r.Ok? ==> |r.value| == |rows| && Rect(width, r.value)
    ensures r.Ok? ==> forall i, j :: 0 <= i < |rows| && 0 <= j < width && j != c ==> r.value[i][j] == rows[i][j]
  {
    if c >= width then Err(IndexError("index " + Text.IntStr(c) + " is out of bounds"))
    else if |vs| != |rows| && |vs| != 1 then Err(ValueError("could not broadcast input array"))
    else Ok(seq(|rows|, i requires 0 <= i < |rows| => rows[i][c := if |vs| == 1 then vs[0] else vs[i]]))
  }

  /** Setting a column and reading it back gives the values set, and the
      other column is untouched. */
  lemma SetThenGet(rows: seq<seq<real>>, c: nat, vs: seq<real>)
    requires Rect(2, rows) && c < 2 && |vs| == |rows|
    ensures SetColumn(2, rows, c, vs).Ok?
    ensures Column(2, SetColumn(2, rows, c, vs).value, c) == Ok(vs)
    ensures Column(2, SetColumn(2, rows, c, vs).value, 1 - c) == Column(2, rows, 1 - c)
  {
    var r := SetColumn(2, rows, c, vs).value;
    if |vs| == 1 {
      assert r[0][c] == vs[0];
    }
    assert Column(2, r, c).value == vs;
    var a := Column(2, r, 1 - c).value;
    var b := Column(2, rows, 1 - c).value;
    forall i | 0 <= i < |rows| ensures a[i] == b[i] {
      assert r[i][1 - c] == rows[i][1 - c];
    }
    assert a == b;
  }

  /** `np.zeros((n, 2))`. */
  function Zeros(n: nat): (r: seq<seq<real>>)
    ensures |r| == n && Rect(2, r)
    ensures forall i, j :: 0 <= i < n && 0 <= j < 2 ==> r[i][j] == 0.0
  {
    seq(n, i => [0.0, 0.0])
  }

  /** `resizeXYData(n)`: Points becomes an n-by-2 table of zeros; a negative
      size is rejected. */
  function Resize(data: Fields, n: int): (r: Result<Fields>)
    ensures r.Ok? <==> n >= 0
    ensures r.Ok? ==> Assoc.Get(r.value, "Points") == Some(Table(2, Zeros(n)))
    ensures r.Ok? ==> forall k :: k != "Points" ==> Assoc.Get(r.value, k) == Assoc.Get(data, k)
  {
    if n < 0 then Err(ValueError("negative dimensions are not allowed"))
    else Ok(Assoc.Put(data, "Points", Table(2, Zeros(n))))
  }

  /** `setXData` (column 0) and `setYData` (column 1): only that column of
      Points changes. */
  function SetData(data: Fields, c: nat, vs: seq<real>): (r: Result<Fields>)
    ensures r.Ok? ==> forall k :: k != "Points" ==> Assoc.Get(r.value, k) == Assoc.Get(data, k)
  {
    var pts: Option<Value> := Assoc.Get(data, "Points");
    if pts.None? then Err(KeyError("Points"))
    else if !pts.value.Table? then Err(TypeError("list indices must be integers or slices, not tuple"))
    else if !Rect(pts.value.width, pts.value.rows) then Err(NotModelled("a ragged table"))
    else
      match SetColumn(pts.value.width, pts.value.rows, c, vs)
      case Err(e) => Err(e)
      case Ok(rows) => Ok(Assoc.Put(data, "Points", Table(pts.value.width, rows)))
  }

  /** After a resize, each column can be set from n values and reads back
      as set. */
  lemma ResizeThenSet(data: Fields, n: nat, c: nat, vs: seq<real>)
    requires c < 2 && |vs| == n
    ensures Resize(data, n).Ok?
    ensures SetData(Resize(data, n).value, c, vs).Ok?
    ensures Assoc.Get(SetData(Resize(data, n).value, c, vs).value, "Points") == Some(Table(2, SetColumn(2, Zeros(n), c, vs).value))
    ensures Column(2, SetColumn(2, Zeros(n), c, vs).value, c) == Ok(vs)
  {
    SetThenGet(Zeros(n), c, vs);
  }
}
