/** Round trip and edge cases of the geometry reader and writer. */
module GeometryProofs {
  import opened Wrappers
  import opened Xml
  import opened Values
  import opened Geometries
  import Assoc
  import Text
  import Seqs

  // ---------------------------------------------------------------------
  // Points

  lemma PointAttrs(i: nat, p: (real, real), codec: FloatCodec)
    ensures Attr(PointElement(i, p, codec), "ID") == Some(Text.IntStr(i + 1))
    ensures Attr(PointElement(i, p, codec), "X") == Some(codec.show(p.0))
    ensures Attr(PointElement(i, p, codec), "Y") == Some(codec.show(p.1))
  {
    var a := PointElement(i, p, codec).attrs;
    assert a[1..] == [("X", codec.show(p.0)), ("Y", codec.show(p.1))];
    assert a[1..][1..] == [("Y", codec.show(p.1))];
    assert Assoc.Get(a, "Y") == Assoc.Get(a[1..], "Y") == Assoc.Get(a[1..][1..], "Y");
  }

  /** Every coordinate of the point table is written as text that parses
      back to it. */
  predicate Shown(ps: seq<(real, real)>, codec: FloatCodec)
  {
    forall i :: 0 <= i < |ps| ==> RoundTrips(codec, ps[i].0) && RoundTrips(codec, ps[i].1)
  }

  lemma PointStep(ps: seq<(real, real)>, j: nat, acc: seq<(real, real)>, codec: FloatCodec)
    requires Shown(ps, codec) && j < |ps| && |acc| == |ps|
    ensures FillPoints(PointElements(ps, codec)[j..], acc, codec)
         == FillPoints(PointElements(ps, codec)[j + 1..], acc[j := ps[j]], codec)
  {
    var e := PointElement(j, ps[j], codec);
    assert PointElements(ps, codec)[j..][0] == e;
    assert PointElements(ps, codec)[j..][1..] == PointElements(ps, codec)[j + 1..];
    assert RoundTrips(codec, ps[j].0) && RoundTrips(codec, ps[j].1);
    PointAttrs(j, ps[j], codec);
    assert FloatAttr(e, "X", codec) == Ok(ps[j].0);
    assert FloatAttr(e, "Y", codec) == Ok(ps[j].1);
    Text.IntStrRoundTrip(j + 1);
    assert IntAttr(e, "ID") == Ok(j + 1);
  }

  /** Every point written at position `j` is read back into row `j`. */
  lemma {:induction false} FillPointsWritten(ps: seq<(real, real)>, j: nat, acc: seq<(real, real)>, codec: FloatCodec)
    requires Shown(ps, codec) && j <= |ps| && |acc| == |ps|
    requires forall i :: 0 <= i < j ==> acc[i] == ps[i]
    ensures FillPoints(PointElements(ps, codec)[j..], acc, codec) == Ok(ps)
    decreases |ps| - j
  {
    if j == |ps| {
      assert PointElements(ps, codec)[j..] == [];
      assert acc == ps;
    } else {
      PointStep(ps, j, acc, codec);
      var next := acc[j := ps[j]];
      assert forall i :: 0 <= i < j + 1 ==> next[i] == ps[i];
      FillPointsWritten(ps, j + 1, next, codec);
    }
  }

  /** The point table survives a write and a read: IDs `i + 1` land back in
      row `i`, and each coordinate whose text parses back to it is kept. */
  lemma PointsRoundTrip(ps: seq<(real, real)>, codec: FloatCodec)
    requires Shown(ps, codec)
    ensures ReadPoints(Counted("Points", PointElements(ps, codec)), codec) == Ok(ps)
  {
    Text.IntStrRoundTrip(|ps|);
    FillPointsWritten(ps, 0, Zeros(|ps|, (0.0, 0.0)), codec);
    assert PointElements(ps, codec)[0..] == PointElements(ps, codec);
  }

  // ---------------------------------------------------------------------
  // Lines

  /** The three texts of a written line read back as its one-based ID and
      point numbers. */
  lemma LineParts(i: nat, l: (int, int))
    ensures Nth(LineElement(i, l), 0).Ok? && IntText(Nth(LineElement(i, l), 0).value.text) == Ok(i + 1)
    ensures Nth(LineElement(i, l), 1).Ok? && IntText(Nth(LineElement(i, l), 1).value.text) == Ok(l.0 + 1)
    ensures Nth(LineElement(i, l), 2).Ok? && IntText(Nth(LineElement(i, l), 2).value.text) == Ok(l.1 + 1)
  {
    Text.IntStrRoundTrip(i + 1);
    Text.IntStrRoundTrip(l.0 + 1);
    Text.IntStrRoundTrip(l.1 + 1);
  }

  lemma FillLinesHead(cs: seq<Element>, acc: seq<(int, int)>, id: int, a: int, b: int)
    requires |cs| > 0 && 1 <= id <= |acc|
    requires Nth(cs[0], 0).Ok? && IntText(Nth(cs[0], 0).value.text) == Ok(id)
    requires Nth(cs[0], 1).Ok? && IntText(Nth(cs[0], 1).value.text) == Ok(a)
    requires Nth(cs[0], 2).Ok? && IntText(Nth(cs[0], 2).value.text) == Ok(b)
    ensures FillLines(cs, acc) == FillLines(cs[1..], acc[id - 1 := (a - 1, b - 1)])
  {
  }

  lemma LineStep(ls: seq<(int, int)>, j: nat, acc: seq<(int, int)>)
    requires j < |ls| && |acc| == |ls|
    ensures FillLines(LineElements(ls)[j..], acc) == FillLines(LineElements(ls)[j + 1..], acc[j := ls[j]])
  {
    var cs := LineElements(ls)[j..];
    assert cs[0] == LineElement(j, ls[j]);
    assert cs[1..] == LineElements(ls)[j + 1..];
    LineParts(j, ls[j]);
    FillLinesHead(cs, acc, j + 1, ls[j].0 + 1, ls[j].1 + 1);
  }

  lemma {:induction false} FillLinesWritten(ls: seq<(int, int)>, j: nat, acc: seq<(int, int)>)
    requires j <= |ls| && |acc| == |ls|
    requires forall i :: 0 <= i < j ==> acc[i] == ls[i]
    ensures FillLines(LineElements(ls)[j..], acc) == Ok(ls)
    decreases |ls| - j
  {
    if j == |ls| {
      assert LineElements(ls)[j..] == [];
      assert acc == ls;
    } else {
      LineStep(ls, j, acc);
      var next := acc[j := ls[j]];
      assert forall i :: 0 <= i < j + 1 ==> next[i] == ls[i];
      FillLinesWritten(ls, j + 1, next);
    }
  }

  /** The line table survives a write and a read: point indices are
      written one-based and shifted back on reading. */
  lemma LinesRoundTrip(ls: seq<(int, int)>)
    ensures ReadLines(Counted("Lines", LineElements(ls))) == Ok(ls)
  {
    Text.IntStrRoundTrip(|ls|);
    FillLinesWritten(ls, 0, Zeros(|ls|, (-1, -1)));
    assert LineElements(ls)[0..] == LineElements(ls);
  }

  // ---------------------------------------------------------------------
  // Regions

  /** `[int(y) for y in ','.join(str(x) for x in ids).split(',')]`. */
  lemma IdsRoundTrip(ids: seq<int>)
    requires |ids| >= 1
    ensures PointIds(Some(Text.Join(IdStrings(ids), ","))) == Ok(ids)
  {
    var strs := IdStrings(ids);
    forall i | 0 <= i < |strs| ensures ',' !in strs[i] {
      Text.IntStrChars(ids[i], ',');
    }
    Text.SplitJoin(strs, ',');
    assert [','] == ",";
    forall i | 0 <= i < |ids| ensures Text.ParseInt(strs[i]) == Some(ids[i]) {
      Text.IntStrRoundTrip(ids[i]);
    }
    var r := ParseIds(strs);
    assert r.Ok?;
    assert r.value == ids;
  }

  /** A region the writer and the reader agree on: its key is `Regions-`
      followed by an ID without `-`, it has at least one point, and it keeps
      at most one childless extra child that is neither ID nor PointIDs. */
  predicate GoodRegion(key: string, r: Region)
  {
    |key| >= 8 && key[..8] == "Regions-" && '-' !in key[8..] &&
    |r.pointIds| >= 1 &&
    |r.extras| <= 1 &&
    (|r.extras| == 1 ==> r.extras[0].tag != "ID" && r.extras[0].tag != "PointIDs" && r.extras[0].children == [])
  }

  lemma KeyRoundTrip(key: string)
    requires |key| >= 8 && key[..8] == "Regions-" && '-' !in key[8..]
    ensures RegionKey(Some(Text.LastPiece(key, '-'))) == key
  {
    var s := key[8..];
    assert key == "Regions" + ['-'] + s;
    Text.LastPieceAfter("Regions", '-', s);
    Text.SplitNone(s, '-');
    assert RegionKey(Some(s)) == "Regions-" + s;
  }

  lemma RegionLocalsWritten(key: string, r: Region, l: Locals)
    requires GoodRegion(key, r)
    ensures RegionLocals(RegionElement(key, r).children, l)
         == Ok(Locals(Some(Some(Text.LastPiece(key, '-'))), Some(r.pointIds), Some(r.extras)))
  {
    var cs := RegionElement(key, r).children;
    var idLeaf := Leaf("ID", Some(Text.LastPiece(key, '-')));
    var ptsLeaf := Leaf("PointIDs", Some(Text.Join(IdStrings(r.pointIds), ",")));
    IdsRoundTrip(r.pointIds);
    var l1 := Locals(Some(Some(Text.LastPiece(key, '-'))), l.pts, Some([idLeaf]));
    var l2 := Locals(Some(Some(Text.LastPiece(key, '-'))), Some(r.pointIds), Some([]));
    assert cs[0] == idLeaf && cs[1..][0] == ptsLeaf;
    assert RegionLocals(cs, l) == RegionLocals(cs[1..], l1);
    assert RegionLocals(cs[1..], l1) == RegionLocals(cs[2..], l2);
    if |r.extras| == 0 {
      assert cs[2..] == [];
    } else {
      var x := r.extras[0];
      assert r.extras == [x];
      assert Shallow(x) == x;
      assert cs[2..] == [x];
      assert [x][1..] == [];
      assert RegionLocals([x], l2) == RegionLocals([], Locals(l2.id, l2.pts, Some([x])));
    }
  }

  lemma ReadRegionWritten(key: string, r: Region, l: Locals, acc: seq<(string, Region)>)
    requires GoodRegion(key, r) && !Assoc.HasKey(acc, key)
    ensures ReadRegion(RegionElement(key, r), l, acc)
         == Ok((Locals(Some(Some(key[8..])), Some(r.pointIds), Some(r.extras)), acc + [(key, r)]))
  {
    RegionLocalsWritten(key, r, l);
    KeyRoundTrip(key);
    var s := key[8..];
    assert key == "Regions" + ['-'] + s;
    Text.LastPieceAfter("Regions", '-', s);
    Text.SplitNone(s, '-');
  }

  predicate GoodRegions(rs: seq<(string, Region)>)
  {
    forall i :: 0 <= i < |rs| ==> GoodRegion(rs[i].0, rs[i].1)
  }

  lemma ReadRegionsHead(cs: seq<Element>, l: Locals, acc: seq<(string, Region)>)
    requires |cs| > 0 && ReadRegion(cs[0], l, acc).Ok?
    ensures ReadRegions(cs, l, acc)
         == ReadRegions(cs[1..], ReadRegion(cs[0], l, acc).value.0, ReadRegion(cs[0], l, acc).value.1)
  {
  }

  /** Regions written with distinct keys are read back in order. */
  lemma {:induction false} ReadRegionsWritten(rs: seq<(string, Region)>, l: Locals, acc: seq<(string, Region)>)
    requires GoodRegions(rs) && Assoc.Unique(acc + rs)
    ensures ReadRegions(RegionElements(rs), l, acc).Ok?
    ensures ReadRegions(RegionElements(rs), l, acc).value.1 == acc + rs
    decreases |rs|
  {
    var cs := RegionElements(rs);
    if |rs| == 0 {
      assert acc + rs == acc;
    } else {
      Assoc.PutFresh(acc, rs);
      var key := rs[0].0;
      var r := rs[0].1;
      assert GoodRegion(key, r);
      ReadRegionWritten(key, r, l, acc);
      var l1 := Locals(Some(Some(key[8..])), Some(r.pointIds), Some(r.extras));
      assert cs[0] == RegionElement(key, r);
      var acc1 := acc + [rs[0]];
      assert ReadRegion(cs[0], l, acc) == Ok((l1, acc1));
      ReadRegionsHead(cs, l, acc);
      var rest := rs[1..];
      assert cs[1..] == RegionElements(rest);
      assert GoodRegions(rest) by {
        forall i | 0 <= i < |rest| ensures GoodRegion(rest[i].0, rest[i].1) {
          assert rest[i] == rs[i + 1];
        }
      }
      ReadRegionsWritten(rest, l1, acc1);
      Seqs.AppendAssoc(acc, [rs[0]], rest);
      assert [rs[0]] + rest == rs;
    }
  }

  // ---------------------------------------------------------------------
  // The whole geometry

  /** A geometry the writer and the reader agree on. */
  predicate Good(g: Geometry)
  {
    g.points.Some? && g.lines.Some? &&
    GoodRegions(g.regions) && Assoc.Unique(g.regions) &&
    forall i :: 0 <= i < |g.other| ==> !Handled(g.other[i].tag)
  }

  /** Unknown children go to `other_elem`, in order. */
  lemma {:induction false} ReadUnhandled(cs: seq<Element>, g: Geometry, l: Locals, codec: FloatCodec)
    requires forall i :: 0 <= i < |cs| ==> !Handled(cs[i].tag)
    ensures ReadChildren(cs, g, l, codec) == Ok((g.(other := g.other + cs), l))
    decreases |cs|
  {
    if |cs| == 0 {
      assert g.other + cs == g.other;
    } else {
      assert forall i :: 0 <= i < |cs[1..]| ==> cs[1..][i] == cs[i + 1];
      ReadUnhandled(cs[1..], g.(other := g.other + [cs[0]]), l, codec);
      assert (g.other + [cs[0]]) + cs[1..] == g.other + cs;
    }
  }

  lemma ReadChildrenCons(e: Element, rest: seq<Element>, g: Geometry, l: Locals, codec: FloatCodec)
    requires ReadChild(e, g, l, codec).Ok?
    ensures ReadChildren([e] + rest, g, l, codec)
         == ReadChildren(rest, ReadChild(e, g, l, codec).value.0, ReadChild(e, g, l, codec).value.1, codec)
  {
    assert ([e] + rest)[0] == e && ([e] + rest)[1..] == rest;
  }

  lemma ReadPointsChild(ps: seq<(real, real)>, g: Geometry, l: Locals, codec: FloatCodec)
    requires Shown(ps, codec)
    ensures ReadChild(Counted("Points", PointElements(ps, codec)), g, l, codec) == Ok((g.(points := Some(ps)), l))
  {
    PointsRoundTrip(ps, codec);
  }

  lemma ReadLinesChild(ls: seq<(int, int)>, g: Geometry, l: Locals, codec: FloatCodec)
    ensures ReadChild(Counted("Lines", LineElements(ls)), g, l, codec) == Ok((g.(lines := Some(ls)), l))
  {
    LinesRoundTrip(ls);
  }

  lemma ReadRegionsChild(rs: seq<(string, Region)>, g: Geometry, l: Locals, codec: FloatCodec)
    requires g.regions == [] && GoodRegions(rs) && Assoc.Unique(rs)
    ensures ReadChild(Counted("Regions", RegionElements(rs)), g, l, codec).Ok?
    ensures ReadChild(Counted("Regions", RegionElements(rs)), g, l, codec).value.0 == g.(regions := rs)
  {
    assert [] + rs == rs;
    ReadRegionsWritten(rs, l, []);
  }

  lemma ReadMeshIdChild(t: Option<string>, g: Geometry, l: Locals, codec: FloatCodec)
    ensures ReadChild(Leaf("MeshId", t), g, l, codec) == Ok((g.(meshId := t), l))
  {
  }

  lemma ReadNameChild(t: Option<string>, g: Geometry, l: Locals, codec: FloatCodec)
    ensures ReadChild(Leaf("Name", t), g, l, codec) == Ok((g.(name := t), l))
  {
  }

  /** A geometry survives `__write__` followed by `read` into a fresh
      object: the same points, lines, regions (keys, points and kept child,
      in order), mesh id, name and unknown children. */
  lemma RoundTrip(g: Geometry, tag: string, codec: FloatCodec)
    requires Good(g) && Shown(g.points.value, codec)
    ensures Write(g, codec).Ok?
    ensures Read(Element(tag, [], None, Write(g, codec).value), codec) == Ok(g)
  {
    ReadWritten(g, codec);
  }

  /** The children `__write__` emits for a good geometry read back into
      that geometry. */
  lemma ReadWritten(g: Geometry, codec: FloatCodec)
    requires Good(g) && Shown(g.points.value, codec)
    ensures var cs := [Counted("Points", PointElements(g.points.value, codec)),
                       Counted("Lines", LineElements(g.lines.value)),
                       Counted("Regions", RegionElements(g.regions)),
                       Leaf("MeshId", g.meshId), Leaf("Name", g.name)] + g.other;
      ReadChildren(cs, Empty, Locals(None, None, None), codec).Ok? &&
      ReadChildren(cs, Empty, Locals(None, None, None), codec).value.0 == g
  {
    var l0 := Locals(None, None, None);
    var p := Counted("Points", PointElements(g.points.value, codec));
    var li := Counted("Lines", LineElements(g.lines.value));
    var re := Counted("Regions", RegionElements(g.regions));
    var m := Leaf("MeshId", g.meshId);
    var n := Leaf("Name", g.name);
    var g1 := Empty.(points := g.points);
    var g2 := g1.(lines := g.lines);
    ReadPointsChild(g.points.value, Empty, l0, codec);
    ReadLinesChild(g.lines.value, g1, l0, codec);
    ReadRegionsChild(g.regions, g2, l0, codec);
    var (g3, l1) := ReadChild(re, g2, l0, codec).value;
    var t3 := [m] + ([n] + g.other);
    var t2 := [re] + t3;
    var t1 := [li] + t2;
    Seqs.FiveThen(p, li, re, m, n, g.other);
    ReadChildrenCons(p, t1, Empty, l0, codec);
    ReadChildrenCons(li, t2, g1, l0, codec);
    ReadChildrenCons(re, t3, g2, l0, codec);
    ReadWrittenTail(g, g3, l1, codec);
  }

  /** The last three parts of a written geometry, MeshId, Name and the
      unknown children, complete a geometry whose points, lines and
      regions are already read. */
  lemma ReadWrittenTail(g: Geometry, h: Geometry, l: Locals, codec: FloatCodec)
    requires Good(g) && h == Empty.(points := g.points, lines := g.lines, regions := g.regions)
    ensures var cs := [Leaf("MeshId", g.meshId)] + ([Leaf("Name", g.name)] + g.other);
      ReadChildren(cs, h, l, codec).Ok? && ReadChildren(cs, h, l, codec).value.0 == g
  {
    var m := Leaf("MeshId", g.meshId);
    var n := Leaf("Name", g.name);
    var h4 := h.(meshId := g.meshId);
    var h5 := h4.(name := g.name);
    ReadMeshIdChild(g.meshId, h, l, codec);
    ReadNameChild(g.name, h4, l, codec);
    ReadChildrenCons(m, [n] + g.other, h, l, codec);
    ReadChildrenCons(n, g.other, h4, l, codec);
    ReadUnhandled(g.other, h5, l, codec);
    assert h5.(other := h5.other + g.other) == g;
  }

  // ---------------------------------------------------------------------
  // Edge cases of the reader

  /** ResultGraphs children are dropped wherever they appear. */
  lemma ResultGraphsDropped(e: Element, rest: seq<Element>, g: Geometry, l: Locals, codec: FloatCodec)
    requires e.tag == "ResultGraphs"
    ensures ReadChildren([e] + rest, g, l, codec) == ReadChildren(rest, g, l, codec)
  {
    ReadChildrenCons(e, rest, g, l, codec);
  }

  /** A region with no ID child is stored under the previous region's key,
      replacing it: `id_` still holds the earlier value. */
  lemma RegionWithoutIdReplacesPrevious(s: string, p1: int, p2: int)
    requires '-' !in s
    ensures ReadRegions(
              [Element("Region", [], None, [Leaf("ID", Some(s)), Leaf("PointIDs", Some(Text.IntStr(p1)))]),
               Element("Region", [], None, [Leaf("PointIDs", Some(Text.IntStr(p2)))])],
              Locals(None, None, None), []).Ok?
    ensures ReadRegions(
              [Element("Region", [], None, [Leaf("ID", Some(s)), Leaf("PointIDs", Some(Text.IntStr(p1)))]),
               Element("Region", [], None, [Leaf("PointIDs", Some(Text.IntStr(p2)))])],
              Locals(None, None, None), []).value.1 == [("Regions-" + s, Region([p2], []))]
  {
    var r1 := Element("Region", [], None, [Leaf("ID", Some(s)), Leaf("PointIDs", Some(Text.IntStr(p1)))]);
    var r2 := Element("Region", [], None, [Leaf("PointIDs", Some(Text.IntStr(p2)))]);
    IdsRoundTrip([p1]);
    IdsRoundTrip([p2]);
    assert Text.Join(IdStrings([p1]), ",") == Text.IntStr(p1);
    assert Text.Join(IdStrings([p2]), ",") == Text.IntStr(p2);
    var la := Locals(Some(Some(s)), Some([p1]), Some([]));
    var lb := Locals(Some(Some(s)), Some([p2]), Some([]));
    var idLeaf := Leaf("ID", Some(s));
    var l0 := Locals(Some(Some(s)), None, Some([idLeaf]));
    assert PointIds(Some(Text.IntStr(p1))) == Ok([p1]);
    assert PointIds(Some(Text.IntStr(p2))) == Ok([p2]);
    assert RegionLocals(r1.children, Locals(None, None, None)) == Ok(la) by {
      var rest := r1.children[1..];
      assert rest == [Leaf("PointIDs", Some(Text.IntStr(p1)))];
      assert RegionLocals(r1.children, Locals(None, None, None)) == RegionLocals(rest, l0);
      assert rest[1..] == [];
      assert RegionLocals(rest, l0) == RegionLocals([], la);
    }
    assert RegionLocals(r2.children, la) == Ok(lb) by {
      assert r2.children[1..] == [];
      assert RegionLocals(r2.children, la) == RegionLocals([], lb);
    }
    var k := RegionKey(Some(s));
    assert ReadRegion(r1, Locals(None, None, None), []) == Ok((la, [(k, Region([p1], []))]));
    assert [(k, Region([p1], []))][0].0 == k;
    assert ReadRegion(r2, la, [(k, Region([p1], []))]) == Ok((lb, Assoc.Put([(k, Region([p1], []))], k, Region([p2], []))));
    assert Assoc.Put([(k, Region([p1], []))], k, Region([p2], [])) == [(k, Region([p2], []))];
    var cs := [r1, r2];
    assert cs[0] == r1 && cs[1..] == [r2] && [r2][0] == r2 && [r2][1..] == [];
    ReadRegionsHead(cs, Locals(None, None, None), []);
    ReadRegionsHead([r2], la, [(k, Region([p1], []))]);
    assert ReadRegions([], lb, [(k, Region([p2], []))]) == Ok((lb, [(k, Region([p2], []))]));
  }

  // ---------------------------------------------------------------------
  // addRegions

  /** As written, the new key can already be in use: a geometry whose only
      region is number 2 loses it. */
  lemma AddRegionsAsWrittenOverwrites(r: Region, ptIds: seq<int>)
    ensures var g := Empty.(regions := [("Regions-2", r)]);
            AddRegionsAsWritten(g, ptIds).regions == [("Regions-2", Region(ptIds, []))]
  {
    var m := [("Regions-2", r)];
    var v := Region(ptIds, []);
    assert Text.IntStr(2) == Text.NatStr(2) == [Text.DigitChar(2)] == "2";
    var key := RegionKey(Some(Text.IntStr(2)));
    assert key == "Regions-2";
    assert m[0].0 == key && m[1..] == [];
    assert Assoc.Put(m, key, v) == [(key, v)] + m[1..];
  }

  /** The corrected version adds exactly one region and keeps every
      existing one. */
  lemma AddRegionsKeepsRegions(g: Geometry, ptIds: seq<int>)
    ensures |AddRegions(g, ptIds).regions| == |g.regions| + 1
    ensures forall k :: Assoc.HasKey(g.regions, k) ==> Assoc.Get(AddRegions(g, ptIds).regions, k) == Assoc.Get(g.regions, k)
    ensures Assoc.Unique(g.regions) ==> Assoc.Unique(AddRegions(g, ptIds).regions)
  {
    var n := MaxNumber(g.regions) + 1;
    var key := RegionKey(Some(Text.IntStr(n)));
    KeyNumberOf(n);
    forall i | 0 <= i < |g.regions| ensures g.regions[i].0 != key {
      assert KeyNumber(g.regions[i].0) != KeyNumber(key);
    }
    if Assoc.Unique(g.regions) {
      Assoc.PutUnique(g.regions, key, Region(ptIds, []));
    }
  }

  /** Regions numbered 1 to n in order. */
  predicate Numbered(rs: seq<(string, Region)>)
  {
    forall i :: 0 <= i < |rs| ==> rs[i].0 == RegionKey(Some(Text.IntStr(i + 1)))
  }

  lemma {:induction false} NumberedMax(rs: seq<(string, Region)>)
    requires Numbered(rs)
    ensures MaxNumber(rs) == |rs|
    decreases |rs|
  {
    if |rs| > 0 {
      var init := rs[..|rs| - 1];
      assert Numbered(init) by {
        forall i | 0 <= i < |init| ensures init[i].0 == RegionKey(Some(Text.IntStr(i + 1))) {
          assert init[i] == rs[i];
        }
      }
      NumberedMax(init);
      MaxNumberSnoc(init, rs[|rs| - 1]);
      assert init + [rs[|rs| - 1]] == rs;
      KeyNumberOf(|rs|);
    }
  }

  lemma {:induction false} MaxNumberSnoc(rs: seq<(string, Region)>, x: (string, Region))
    ensures MaxNumber(rs + [x]) ==
      var here := KeyNumber(x.0);
      if here.Some? && here.value > MaxNumber(rs) then here.value else MaxNumber(rs)
    decreases |rs|
  {
    if |rs| > 0 {
      assert (rs + [x])[1..] == rs[1..] + [x];
      MaxNumberSnoc(rs[1..], x);
    } else {
      assert [x][1..] == [];
    }
  }

  /** When the regions are numbered 1 to n in order, the corrected version
      adds the same region as the original. */
  lemma AddRegionsAgrees(g: Geometry, ptIds: seq<int>)
    requires Numbered(g.regions)
    ensures AddRegions(g, ptIds) == AddRegionsAsWritten(g, ptIds)
  {
    NumberedMax(g.regions);
  }
}
