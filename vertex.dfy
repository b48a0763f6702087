/** The vertex importer of pkg/importers/vertex.go: an OBJ reader that
    resolves face entries against the vectors declared on earlier lines, and
    a reader of the geometry nodes of binary FBX files. Floating-point
    values are carried as bit patterns; ParseFloat is the oracle in
    FloatOps. */
module Vertices {
  import opened Common
  import opened Text
  import opened Fbx

  datatype Vec3 = Vec3(x: Float, y: Float, z: Float)
  datatype Vec2 = Vec2(u: Float, v: Float)

  const ZeroVec3: Vec3 := Vec3(FloatZero, FloatZero, FloatZero)
  const ZeroVec2: Vec2 := Vec2(FloatZero, FloatZero)

  /** A vertex: position, normal and texture coordinates; what a face entry
      does not give stays zero. */
  datatype Vertex = Vertex(position: Vec3, normal: Vec3, texCoords: Vec2)

  /** Vertices built so far together with how the import ended. */
  type Built = (seq<Vertex>, Outcome)

  function PrependBuilt(done: seq<Vertex>, r: Built): Built {
    (done + r.0, r.1)
  }

  lemma PrependBuiltAppend(done: seq<Vertex>, more: seq<Vertex>, r: Built)
    ensures PrependBuilt(done, PrependBuilt(more, r)) == PrependBuilt(done + more, r)
  {
    assert done + (more + r.0) == (done + more) + r.0;
  }

  lemma AppendAssoc(a: seq<Vertex>, b: seq<Vertex>, c: seq<Vertex>)
    ensures (a + b) + c == a + (b + c)
  {
  }

  lemma PrependBuiltNothing(r: Built)
    ensures PrependBuilt([], r) == r
  {
    assert [] + r.0 == r.0;
  }

  // ---------------------------------------------------------------------
  // parseVector3, parseVector2
  // ---------------------------------------------------------------------

  /** ParseFloat applied to each value in turn, stopping at the first
      failure. */
  function ParseFloats(fops: FloatOps, values: seq<string>): (r: Result<seq<Float>>)
    ensures r.Ok? ==> |r.value| == |values|
    ensures r.Ok? ==> forall i :: 0 <= i < |values| ==> fops.parse(values[i]) == Some(r.value[i])
    ensures r.Err? ==>
      exists i :: 0 <= i < |values| && fops.parse(values[i]).None? && r.error == BadNumber(values[i]) &&
        forall j :: 0 <= j < i ==> fops.parse(values[j]).Some?
  {
    if values == [] then Ok([])
    else match fops.parse(values[0])
      case None => Err(BadNumber(values[0]))
      case Some(x) =>
        match ParseFloats(fops, values[1..])
        case Err(e) => Err(e)
        case Ok(rest) => Ok([x] + rest)
  }

  /** What parseVector3 computes: the first three values parsed. */
  function Vector3Of(fops: FloatOps, values: seq<string>): (r: Result<Vec3>)
    ensures |values| < 3 ==> r == Err(NotEnoughValues)
    ensures r.Ok? <==> |values| >= 3 && forall i :: 0 <= i < 3 ==> fops.parse(values[i]).Some?
    ensures r.Ok? ==> r.value == Vec3(fops.parse(values[0]).value, fops.parse(values[1]).value, fops.parse(values[2]).value)
  {
    if |values| < 3 then Err(NotEnoughValues)
    else match ParseFloats(fops, values[..3])
      case Err(e) => Err(e)
      case Ok(xs) => Ok(Vec3(xs[0], xs[1], xs[2]))
  }

  /** What parseVector2 computes: the first two values parsed. */
  function Vector2Of(fops: FloatOps, values: seq<string>): (r: Result<Vec2>)
    ensures |values| < 2 ==> r == Err(NotEnoughValues)
    ensures r.Ok? <==> |values| >= 2 && forall i :: 0 <= i < 2 ==> fops.parse(values[i]).Some?
    ensures r.Ok? ==> r.value == Vec2(fops.parse(values[0]).value, fops.parse(values[1]).value)
  {
    if |values| < 2 then Err(NotEnoughValues)
    else match ParseFloats(fops, values[..2])
      case Err(e) => Err(e)
      case Ok(xs) => Ok(Vec2(xs[0], xs[1]))
  }

  /** parseVector3: the first error of ParseFloat is returned as is. */
  method ParseVector3(fops: FloatOps, values: seq<string>) returns (r: Result<Vec3>)
    ensures r == Vector3Of(fops, values)
  {
    if |values| < 3 {
      return Err(NotEnoughValues);
    }
    var result: seq<Float> := [];
    for i := 0 to 3
      invariant |result| == i
      invariant forall j :: 0 <= j < i ==> fops.parse(values[j]) == Some(result[j])
    {
      var val := fops.parse(values[i]);
      if val.None? {
        ghost var p := ParseFloats(fops, values[..3]);
        assert values[..3][i] == values[i];
        return Err(BadNumber(values[i]));
      }
      result := result + [val.value];
    }
    r := Ok(Vec3(result[0], result[1], result[2]));
  }

  /** parseVector2 */
  method ParseVector2(fops: FloatOps, values: seq<string>) returns (r: Result<Vec2>)
    ensures r == Vector2Of(fops, values)
  {
    if |values| < 2 {
      return Err(NotEnoughValues);
    }
    var result: seq<Float> := [];
    for i := 0 to 2
      invariant |result| == i
      invariant forall j :: 0 <= j < i ==> fops.parse(values[j]) == Some(result[j])
    {
      var val := fops.parse(values[i]);
      if val.None? {
        ghost var p := ParseFloats(fops, values[..2]);
        assert values[..2][i] == values[i];
        return Err(BadNumber(values[i]));
      }
      result := result + [val.value];
    }
    r := Ok(Vec2(result[0], result[1]));
  }

  // ---------------------------------------------------------------------
  // parseIndex
  // ---------------------------------------------------------------------

  /** parseIndex: a 1-based OBJ index k > 0 names element k - 1, a negative
      one counts from the end (maxLen + k); the result must lie in
      [0, maxLen). */
  function ParseIndex(indexStr: string, maxLen: nat): (r: Result<nat>)
    ensures Atoi(indexStr).None? ==> r == Err(BadNumber(indexStr))
    ensures r.Ok? ==> r.value < maxLen
    ensures r.Ok? <==> (Atoi(indexStr).Some? &&
      (0 < Atoi(indexStr).value <= maxLen || 0 < -Atoi(indexStr).value <= maxLen))
    ensures r.Ok? && Atoi(indexStr).value > 0 ==> r.value == Atoi(indexStr).value - 1
    ensures r.Ok? && Atoi(indexStr).value < 0 ==> r.value == maxLen + Atoi(indexStr).value
  {
    match Atoi(indexStr)
    case None => Err(BadNumber(indexStr))
    case Some(k) =>
      var index := if k < 0 then maxLen + k else k - 1;
      if index < 0 || index >= maxLen then Err(IndexOutOfBounds(index, maxLen)) else Ok(index)
  }

  /** Index 0 is never valid. */
  lemma ParseIndexZero(maxLen: nat)
    ensures ParseIndex("0", maxLen) == Err(IndexOutOfBounds(-1, maxLen))
  {
    AtoiOfNatToString(0);
  }

  /** The decimal text of k + 1 names element k. */
  lemma ParseIndexOneBased(k: nat, maxLen: nat)
    requires k < maxLen <= MaxInt64
    ensures ParseIndex(NatToString(k + 1), maxLen) == Ok(k)
  {
    AtoiOfNatToString(k + 1);
  }

  /** "-j" names the j-th element from the end. */
  lemma ParseIndexFromEnd(j: nat, maxLen: nat)
    requires 0 < j <= maxLen <= MaxInt64
    ensures ParseIndex("-" + NatToString(j), maxLen) == Ok(maxLen - j)
  {
    AtoiOfNegative(j);
  }

  // ---------------------------------------------------------------------
  // processFace
  // ---------------------------------------------------------------------

  /** The vectors declared by the OBJ lines read so far. */
  datatype Tables = Tables(positions: seq<Vec3>, normals: seq<Vec3>, texCoords: seq<Vec2>)

  const EmptyTables: Tables := Tables([], [], [])

  function OptionalIndex(indices: seq<string>, k: nat): string {
    if |indices| > k then indices[k] else ""
  }

  /** The vertex one face entry ("p", "p/t", "p//n" or "p/t/n") builds:
      the position is required, texture coordinates and normal are looked up
      only when their slash field is present and non-empty. */
  function FaceVertex(entry: string, t: Tables): (r: Result<Vertex>)
    ensures r.Ok? ==> r.value.position in t.positions
    ensures r.Ok? && OptionalIndex(SplitOn(entry, '/'), 1) == "" ==> r.value.texCoords == ZeroVec2
    ensures r.Ok? && OptionalIndex(SplitOn(entry, '/'), 1) != "" ==> r.value.texCoords in t.texCoords
    ensures r.Ok? && OptionalIndex(SplitOn(entry, '/'), 2) == "" ==> r.value.normal == ZeroVec3
    ensures r.Ok? && OptionalIndex(SplitOn(entry, '/'), 2) != "" ==> r.value.normal in t.normals
    ensures ParseIndex(SplitOn(entry, '/')[0], |t.positions|).Err? ==>
      r == Err(ParseIndex(SplitOn(entry, '/')[0], |t.positions|).error)
  {
    var indices := SplitOn(entry, '/');
    match ParseIndex(indices[0], |t.positions|)
    case Err(e) => Err(e)
    case Ok(p) =>
      var texField := OptionalIndex(indices, 1);
      var normalField := OptionalIndex(indices, 2);
      var tex: Result<Vec2> :=
        if texField == "" then Ok(ZeroVec2)
        else match ParseIndex(texField, |t.texCoords|)
          case Err(e) => Err(e)
          case Ok(ti) => Ok(t.texCoords[ti]);
      if tex.Err? then Err(tex.error)
      else
        var normal: Result<Vec3> :=
          if normalField == "" then Ok(ZeroVec3)
          else match ParseIndex(normalField, |t.normals|)
            case Err(e) => Err(e)
            case Ok(ni) => Ok(t.normals[ni]);
        if normal.Err? then Err(normal.error)
        else Ok(Vertex(t.positions[p], normal.value, tex.value))
  }

  /** The loop of processFace: one vertex per entry, in order, until the
      first entry that fails; the vertices built before it are kept. */
  function FaceBuild(entries: seq<string>, t: Tables): Built {
    if entries == [] then ([], Pass)
    else match FaceVertex(entries[0], t)
      case Err(e) => ([], Fail(e))
      case Ok(v) => PrependBuilt([v], FaceBuild(entries[1..], t))
  }

  /** processFace keeps the vertices of the entries before the first one
      that fails, and fails with that entry's error; it passes exactly when
      every entry gives a vertex, one per entry in order. */
  lemma {:induction false} FaceBuildMeaning(entries: seq<string>, t: Tables)
    ensures |FaceBuild(entries, t).0| <= |entries|
    ensures forall k :: 0 <= k < |FaceBuild(entries, t).0| ==> FaceVertex(entries[k], t) == Ok(FaceBuild(entries, t).0[k])
    ensures FaceBuild(entries, t).1 == Pass <==> |FaceBuild(entries, t).0| == |entries|
    ensures FaceBuild(entries, t).1.Fail? ==>
      FaceVertex(entries[|FaceBuild(entries, t).0|], t) == Err(FaceBuild(entries, t).1.error)
  {
    if entries != [] && FaceVertex(entries[0], t).Ok? {
      FaceBuildMeaning(entries[1..], t);
    }
  }

  lemma FaceBuildStep(entries: seq<string>, i: nat, t: Tables)
    requires i < |entries|
    ensures FaceBuild(entries[i..], t) ==
      match FaceVertex(entries[i], t)
      case Err(e) => ([], Fail(e))
      case Ok(v) => PrependBuilt([v], FaceBuild(entries[i + 1..], t))
  {
    assert entries[i..][1..] == entries[i + 1..];
  }

  /** The body of the loop of processFace: the vertex of one entry. */
  method BuildFaceVertex(entry: string, t: Tables) returns (r: Result<Vertex>)
    ensures r == FaceVertex(entry, t)
  {
    var indices := SplitOn(entry, '/');
    var posIndex := ParseIndex(indices[0], |t.positions|);
    if posIndex.Err? {
      return Err(posIndex.error);
    }
    var vertex := Vertex(t.positions[posIndex.value], ZeroVec3, ZeroVec2);
    if |indices| > 1 && indices[1] != "" {
      var texIndex := ParseIndex(indices[1], |t.texCoords|);
      if texIndex.Err? {
        return Err(texIndex.error);
      }
      vertex := vertex.(texCoords := t.texCoords[texIndex.value]);
    }
    if |indices| > 2 && indices[2] != "" {
      var normalIndex := ParseIndex(indices[2], |t.normals|);
      if normalIndex.Err? {
        return Err(normalIndex.error);
      }
      vertex := vertex.(normal := t.normals[normalIndex.value]);
    }
    r := Ok(vertex);
  }

  /** processFace: fewer than three entries is an error. */
  function Face(entries: seq<string>, t: Tables): Built {
    if |entries| < 3 then ([], Fail(FaceTooSmall)) else FaceBuild(entries, t)
  }

  // ---------------------------------------------------------------------
  // ImportFromOBJ
  // ---------------------------------------------------------------------

  /** The effect of one OBJ line: the new tables, the vertices it appends
      and whether the import goes on. */
  type LineEffect = (Tables, seq<Vertex>, Outcome)

  function Declare(t: Tables, keyword: string, fields: seq<string>, fops: FloatOps): LineEffect
    requires keyword in {"v", "vn", "vt"}
  {
    if keyword == "v" then
      if |fields| < 4 then (t, [], Fail(InvalidLine("invalid vertex position")))
      else match Vector3Of(fops, fields[1..4])
        case Err(e) => (t, [], Fail(e))
        case Ok(p) => (t.(positions := t.positions + [p]), [], Pass)
    else if keyword == "vn" then
      if |fields| < 4 then (t, [], Fail(InvalidLine("invalid vertex normal")))
      else match Vector3Of(fops, fields[1..4])
        case Err(e) => (t, [], Fail(e))
        case Ok(n) => (t.(normals := t.normals + [n]), [], Pass)
    else
      if |fields| < 3 then (t, [], Fail(InvalidLine("invalid texture coordinates")))
      else match Vector2Of(fops, fields[1..3])
        case Err(e) => (t, [], Fail(e))
        case Ok(c) => (t.(texCoords := t.texCoords + [c]), [], Pass)
  }

  /** One line of ImportFromOBJ: blank lines, '#' comments, lines with
      fewer than two fields and unknown keywords are skipped. */
  function ObjLine(fops: FloatOps, line: string, t: Tables): LineEffect {
    var trimmed := TrimSpace(line);
    if trimmed == "" || trimmed[0] == '#' then (t, [], Pass)
    else ObjFields(fops, Fields(trimmed), t)
  }

  /** The effect of the fields of a line that is not blank or a comment. */
  function ObjFields(fops: FloatOps, fields: seq<string>, t: Tables): LineEffect {
    if |fields| < 2 then (t, [], Pass)
    else if fields[0] in {"v", "vn", "vt"} then Declare(t, fields[0], fields, fops)
    else if fields[0] == "f" then
      var (b, o) := Face(fields[1..], t);
      (t, b, o)
    else (t, [], Pass)
  }

  /** The lines from the i-th on, read with the tables t. */
  function ObjFrom(fops: FloatOps, lines: seq<string>, i: nat, t: Tables): Built
    requires i <= |lines|
    decreases |lines| - i
  {
    if i == |lines| then ([], Pass)
    else
      var (t', b, o) := ObjLine(fops, lines[i], t);
      if o.Fail? then (b, o) else PrependBuilt(b, ObjFrom(fops, lines, i + 1, t'))
  }

  lemma ObjFromStep(fops: FloatOps, lines: seq<string>, i: nat, t: Tables)
    requires i < |lines|
    ensures ObjLine(fops, lines[i], t).2.Fail? ==>
      ObjFrom(fops, lines, i, t) == (ObjLine(fops, lines[i], t).1, ObjLine(fops, lines[i], t).2)
    ensures ObjLine(fops, lines[i], t).2.Pass? ==>
      ObjFrom(fops, lines, i, t) == PrependBuilt(ObjLine(fops, lines[i], t).1, ObjFrom(fops, lines, i + 1, ObjLine(fops, lines[i], t).0))
  {
  }

  /** One turn of the loop of ImportFromOBJ, with `whole` the result of
      the import and `built` the vertices built by the lines before the
      i-th. */
  lemma ObjImportStep(whole: Built, fops: FloatOps, lines: seq<string>, i: nat, t: Tables, built: seq<Vertex>)
    requires i < |lines| && whole == PrependBuilt(built, ObjFrom(fops, lines, i, t))
    ensures ObjLine(fops, lines[i], t).2.Fail? ==>
      whole == (built + ObjLine(fops, lines[i], t).1, ObjLine(fops, lines[i], t).2)
    ensures ObjLine(fops, lines[i], t).2.Pass? ==>
      whole == PrependBuilt(built + ObjLine(fops, lines[i], t).1, ObjFrom(fops, lines, i + 1, ObjLine(fops, lines[i], t).0))
  {
    ObjFromStep(fops, lines, i, t);
    var e := ObjLine(fops, lines[i], t);
    if e.2.Pass? {
      PrependBuiltAppend(built, e.1, ObjFrom(fops, lines, i + 1, e.0));
    }
  }

  lemma ObjImportDone(whole: Built, fops: FloatOps, lines: seq<string>, t: Tables, built: seq<Vertex>)
    requires whole == PrependBuilt(built, ObjFrom(fops, lines, |lines|, t))
    ensures whole == (built, Pass)
  {
    assert built + [] == built;
  }

  /** ImportFromOBJ on a whole text: its lines as bufio.Scanner yields them. */
  function ObjImport(fops: FloatOps, text: string): Built {
    ObjFrom(fops, ScanLines(text), 0, EmptyTables)
  }

  /** Three words that fops reads as the components of v. */
  predicate Spells(fops: FloatOps, xs: seq<string>, v: Vec3) {
    |xs| == 3 && Words(xs) &&
    fops.parse(xs[0]) == Some(v.x) && fops.parse(xs[1]) == Some(v.y) && fops.parse(xs[2]) == Some(v.z)
  }

  /** A line of words joined by single spaces, not starting with '#', has
      those words as its fields. */
  lemma ObjLineOfWords(fops: FloatOps, ws: seq<string>, t: Tables)
    requires Words(ws) && ws != [] && ws[0][0] != '#'
    ensures ObjLine(fops, JoinSpace(ws), t) == ObjFields(fops, ws, t)
  {
    JoinSpaceEnds(ws);
    TrimSpaceOfJoinSpace(ws);
    FieldsOfJoinSpace(ws);
  }

  lemma WordsCons(w: string, ws: seq<string>)
    requires w != [] && NoSpace(w) && Words(ws)
    ensures Words([w] + ws)
  {
    var all := [w] + ws;
    forall i | 0 <= i < |all| ensures all[i] != [] && NoSpace(all[i]) {
      if i > 0 { assert all[i] == ws[i - 1]; }
    }
  }

  lemma SpelledVector(fops: FloatOps, xs: seq<string>, p: Vec3)
    requires Spells(fops, xs, p)
    ensures Vector3Of(fops, xs) == Ok(p)
  {
    assert forall i :: 0 <= i < 3 ==> fops.parse(xs[i]).Some?;
  }

  /** A "v x y z" line whose numbers parse appends one position and
      builds no vertex. */
  lemma PositionLine(fops: FloatOps, t: Tables, xs: seq<string>, p: Vec3)
    requires Spells(fops, xs, p)
    ensures ObjLine(fops, JoinSpace(["v"] + xs), t) == (t.(positions := t.positions + [p]), [], Pass)
  {
    var ws := ["v"] + xs;
    WordsCons("v", xs);
    ObjLineOfWords(fops, ws, t);
    assert ws[1..4] == xs;
    SpelledVector(fops, xs, p);
  }

  /** An "f ..." line builds the vertices of its entries, as processFace
      does, and leaves the tables alone. */
  lemma FaceLine(fops: FloatOps, t: Tables, entries: seq<string>)
    requires Words(entries) && entries != []
    ensures ObjLine(fops, JoinSpace(["f"] + entries), t) == (t, Face(entries, t).0, Face(entries, t).1)
  {
    var ws := ["f"] + entries;
    WordsCons("f", entries);
    ObjLineOfWords(fops, ws, t);
    assert ws[1..] == entries;
  }

  /** A face entry that is a bare one-based index picks that position, with
      a zero normal and zero texture coordinates. */
  lemma PlainEntry(k: nat, t: Tables)
    requires k < |t.positions| <= MaxInt64
    ensures FaceVertex(NatToString(k + 1), t) == Ok(Vertex(t.positions[k], ZeroVec3, ZeroVec2))
  {
    var e := NatToString(k + 1);
    assert '/' !in e by {
      forall i | 0 <= i < |e| ensures e[i] != '/' {
        assert IsDigit(e[i]);
      }
    }
    SplitOnWithout(e, '/');
    ParseIndexOneBased(k, |t.positions|);
  }

  lemma FaceBuildCons(e: string, rest: seq<string>, v: Vertex, t: Tables)
    requires FaceVertex(e, t) == Ok(v)
    ensures FaceBuild([e] + rest, t) == PrependBuilt([v], FaceBuild(rest, t))
  {
    assert ([e] + rest)[1..] == rest;
  }

  /** A face whose entries are all bare valid indices builds one vertex
      per entry. */
  lemma PlainTriangle(t: Tables)
    requires 3 <= |t.positions| <= MaxInt64
    ensures Face(["1", "2", "3"], t) ==
      ([Vertex(t.positions[0], ZeroVec3, ZeroVec2), Vertex(t.positions[1], ZeroVec3, ZeroVec2),
        Vertex(t.positions[2], ZeroVec3, ZeroVec2)], Pass)
  {
    var e1, e2, e3 := NatToString(1), NatToString(2), NatToString(3);
    var v0 := Vertex(t.positions[0], ZeroVec3, ZeroVec2);
    var v1 := Vertex(t.positions[1], ZeroVec3, ZeroVec2);
    var v2 := Vertex(t.positions[2], ZeroVec3, ZeroVec2);
    assert [e3] + [] == [e3] && [v2] + [] == [v2];
    assert [e2] + [e3] == [e2, e3] && [v1] + [v2] == [v1, v2];
    assert [e1] + [e2, e3] == [e1, e2, e3] && [v0] + [v1, v2] == [v0, v1, v2];
    assert [e1, e2, e3] == ["1", "2", "3"];
    PlainEntry(0, t);
    PlainEntry(1, t);
    PlainEntry(2, t);
    FaceBuildCons(e3, [], v2, t);
    FaceBuildCons(e2, [e3], v1, t);
    FaceBuildCons(e1, [e2, e3], v0, t);
  }

  /** One line that passes, then the rest of the lines. */
  lemma ObjFromPass(fops: FloatOps, lines: seq<string>, i: nat, t: Tables, t': Tables, b: seq<Vertex>, rest: Built)
    requires i < |lines|
    requires ObjLine(fops, lines[i], t) == (t', b, Pass) && ObjFrom(fops, lines, i + 1, t') == rest
    ensures ObjFrom(fops, lines, i, t) == PrependBuilt(b, rest)
  {
  }

  /** One line that passes without building a vertex leaves the result of
      the rest unchanged. */
  lemma ObjFromSkip(fops: FloatOps, lines: seq<string>, i: nat, t: Tables, t': Tables, rest: Built)
    requires i < |lines|
    requires ObjLine(fops, lines[i], t) == (t', [], Pass) && ObjFrom(fops, lines, i + 1, t') == rest
    ensures ObjFrom(fops, lines, i, t) == rest
  {
    assert [] + rest.0 == rest.0;
  }

  lemma JoinFace()
    ensures JoinSpace(["f", "1", "2", "3"]) == "f 1 2 3"
  {
    assert ["f", "1", "2", "3"][1..] == ["1", "2", "3"];
    assert ["1", "2", "3"][1..] == ["2", "3"];
    assert ["2", "3"][1..] == ["3"];
  }

  /** Three lines that each declare one position, then whatever the rest
      gives with the three positions declared. */
  lemma ThreePositionsThen(fops: FloatOps, lines: seq<string>, p: Vec3, q: Vec3, r: Vec3, rest: Built)
    requires |lines| == 4
    requires ObjLine(fops, lines[0], EmptyTables) == (EmptyTables.(positions := [p]), [], Pass)
    requires ObjLine(fops, lines[1], EmptyTables.(positions := [p])) == (EmptyTables.(positions := [p, q]), [], Pass)
    requires ObjLine(fops, lines[2], EmptyTables.(positions := [p, q])) == (EmptyTables.(positions := [p, q, r]), [], Pass)
    requires ObjFrom(fops, lines, 3, EmptyTables.(positions := [p, q, r])) == rest
    ensures ObjFrom(fops, lines, 0, EmptyTables) == rest
  {
    ObjFromSkip(fops, lines, 2, EmptyTables.(positions := [p, q]), EmptyTables.(positions := [p, q, r]), rest);
    ObjFromSkip(fops, lines, 1, EmptyTables.(positions := [p]), EmptyTables.(positions := [p, q]), rest);
    ObjFromSkip(fops, lines, 0, EmptyTables, EmptyTables.(positions := [p]), rest);
  }

  lemma ThreePositionLines(fops: FloatOps, xs: seq<string>, ys: seq<string>, zs: seq<string>, p: Vec3, q: Vec3, r: Vec3)
    requires Spells(fops, xs, p) && Spells(fops, ys, q) && Spells(fops, zs, r)
    ensures ObjLine(fops, JoinSpace(["v"] + xs), EmptyTables) == (EmptyTables.(positions := [p]), [], Pass)
    ensures ObjLine(fops, JoinSpace(["v"] + ys), EmptyTables.(positions := [p])) == (EmptyTables.(positions := [p, q]), [], Pass)
    ensures ObjLine(fops, JoinSpace(["v"] + zs), EmptyTables.(positions := [p, q])) == (EmptyTables.(positions := [p, q, r]), [], Pass)
  {
    assert EmptyTables.positions + [p] == [p];
    assert [p] + [q] == [p, q];
    assert [p, q] + [r] == [p, q, r];
    PositionLine(fops, EmptyTables, xs, p);
    PositionLine(fops, EmptyTables.(positions := [p]), ys, q);
    PositionLine(fops, EmptyTables.(positions := [p, q]), zs, r);
  }

  /** The line "f 1 2 3", with three positions declared, builds the
      triangle of the first three positions. */
  lemma TriangleLine(fops: FloatOps, t: Tables, line: string)
    requires 3 <= |t.positions| <= MaxInt64 && line == "f 1 2 3"
    ensures ObjLine(fops, line, t) ==
      (t, [Vertex(t.positions[0], ZeroVec3, ZeroVec2), Vertex(t.positions[1], ZeroVec3, ZeroVec2),
           Vertex(t.positions[2], ZeroVec3, ZeroVec2)], Pass)
  {
    JoinFace();
    assert ["f"] + ["1", "2", "3"] == ["f", "1", "2", "3"];
    FaceLine(fops, t, ["1", "2", "3"]);
    PlainTriangle(t);
  }

  /** The face "f 1 2 3" as the last line, with three positions declared. */
  lemma LastFace(fops: FloatOps, lines: seq<string>, t: Tables)
    requires |lines| == 4 && lines[3] == "f 1 2 3" && 3 <= |t.positions| <= MaxInt64
    ensures ObjFrom(fops, lines, 3, t) ==
      ([Vertex(t.positions[0], ZeroVec3, ZeroVec2), Vertex(t.positions[1], ZeroVec3, ZeroVec2),
        Vertex(t.positions[2], ZeroVec3, ZeroVec2)], Pass)
  {
    var face := [Vertex(t.positions[0], ZeroVec3, ZeroVec2), Vertex(t.positions[1], ZeroVec3, ZeroVec2),
                 Vertex(t.positions[2], ZeroVec3, ZeroVec2)];
    TriangleLine(fops, t, lines[3]);
    ObjFromPass(fops, lines, 3, t, t, face, ([], Pass));
    assert face + [] == face;
  }

  /** Three position lines and the face "f 1 2 3" import as the triangle of
      those three positions. */
  lemma TriangleImport(fops: FloatOps, xs: seq<string>, ys: seq<string>, zs: seq<string>, p: Vec3, q: Vec3, r: Vec3)
    requires Spells(fops, xs, p) && Spells(fops, ys, q) && Spells(fops, zs, r)
    ensures ObjFrom(fops, [JoinSpace(["v"] + xs), JoinSpace(["v"] + ys), JoinSpace(["v"] + zs), "f 1 2 3"], 0, EmptyTables) ==
      ([Vertex(p, ZeroVec3, ZeroVec2), Vertex(q, ZeroVec3, ZeroVec2), Vertex(r, ZeroVec3, ZeroVec2)], Pass)
  {
    var lines := [JoinSpace(["v"] + xs), JoinSpace(["v"] + ys), JoinSpace(["v"] + zs), "f 1 2 3"];
    var t3 := EmptyTables.(positions := [p, q, r]);
    LastFace(fops, lines, t3);
    ThreePositionLines(fops, xs, ys, zs, p, q, r);
    ThreePositionsThen(fops, lines, p, q, r, ObjFrom(fops, lines, 3, t3));
  }

  /** The entry "1" against an empty position table: index 1 is
      converted to 0, which is out of bounds. */
  lemma FirstEntryWithoutPositions()
    ensures FaceVertex("1", EmptyTables) == Err(IndexOutOfBounds(0, 0))
  {
    SplitOnWithout("1", '/');
    assert NatToString(1) == "1";
    AtoiOfNatToString(1);
  }

  /** A face before any position line fails: index 1 is converted to 0,
      which is out of bounds for an empty position table. */
  lemma FaceBeforePositions(fops: FloatOps)
    ensures ObjFrom(fops, ["f 1 2 3"], 0, EmptyTables) == ([], Fail(IndexOutOfBounds(0, 0)))
  {
    JoinFace();
    assert ["f"] + ["1", "2", "3"] == ["f", "1", "2", "3"];
    FaceLine(fops, EmptyTables, ["1", "2", "3"]);
    FirstEntryWithoutPositions();
    assert Face(["1", "2", "3"], EmptyTables) == ([], Fail(IndexOutOfBounds(0, 0)));
  }

  /** A position line with two numbers is invalid and stops the import. */
  lemma ShortPositionLine(fops: FloatOps, t: Tables, xs: seq<string>)
    requires |xs| == 2 && Words(xs)
    ensures ObjLine(fops, JoinSpace(["v"] + xs), t) == (t, [], Fail(InvalidLine("invalid vertex position")))
  {
    WordsCons("v", xs);
    ObjLineOfWords(fops, ["v"] + xs, t);
  }

  // ---------------------------------------------------------------------
  // extractFloatArray
  // ---------------------------------------------------------------------

  function Min(a: nat, b: nat): nat {
    if a < b then a else b
  }

  /** What extractFloatArray returns: nothing when fewer than 4 bytes,
      otherwise as many little-endian 8-byte values after the uint32 count
      as the count asks for and the data holds. */
  function FloatArray(data: seq<byte>): (r: seq<Float>)
    ensures |data| < 4 ==> r == []
    ensures |data| >= 4 ==> |r| == Min(LeU32(data, 0), (|data| - 4) / 8)
    ensures forall k :: 0 <= k < |r| ==> 4 + 8 * k + 8 <= |data| && r[k] == LeU64(data, 4 + 8 * k)
  {
    if |data| < 4 then []
    else
      var n := Min(LeU32(data, 0), (|data| - 4) / 8);
      seq(n, k requires 0 <= k < n => LeU64(data, 4 + 8 * k))
  }

  /** extractFloatArray */
  method ExtractFloatArray(data: seq<byte>) returns (result: seq<Float>)
    requires |data| <= SizeLimit
    ensures result == FloatArray(data)
  {
    result := [];
    if |data| < 4 {
      return;
    }
    var arrayLen: nat := LeU32(data, 0);
    var offset: nat := 4;
    var i: nat := 0;
    while i < arrayLen && offset + 8 <= |data|
      invariant 0 <= i <= arrayLen && offset == 4 + 8 * i && offset <= |data|
      invariant |result| == i
      invariant forall k :: 0 <= k < i ==> result[k] == LeU64(data, 4 + 8 * k)
      decreases arrayLen - i
    {
      result := result + [LeU64(data, offset)];
      offset := offset + 8;
      i := i + 1;
    }
    assert i == Min(arrayLen, (|data| - 4) / 8);
  }

  /** The layout extractFloatArray reads: a uint32 count and the values. */
  function EncodeFloatArray(values: seq<Float>): (r: seq<byte>)
    requires |values| < 0x1_0000_0000
    ensures |r| == 4 + 8 * |values|
  {
    Pow256Widths();
    LeBytes(|values|, 4) + EncodeFloats(values)
  }

  /** Floats one after the other, eight little-endian bytes each. */
  function EncodeFloats(values: seq<Float>): (r: seq<byte>)
    ensures |r| == 8 * |values|
  {
    if values == [] then [] else PutU64(values[0]) + EncodeFloats(values[1..])
  }

  /** The k-th eight bytes of EncodeFloats hold the k-th float. */
  lemma {:induction false} EncodeFloatsAt(values: seq<Float>, k: nat)
    requires k < |values|
    ensures EncodeFloats(values)[8 * k..8 * k + 8] == PutU64(values[k])
  {
    var e := EncodeFloats(values);
    if k == 0 {
      assert e[..8] == PutU64(values[0]);
    } else {
      EncodeFloatsAt(values[1..], k - 1);
      assert e[8..] == EncodeFloats(values[1..]);
      assert e[8 * k..8 * k + 8] == e[8..][8 * (k - 1)..8 * (k - 1) + 8];
    }
  }

  /** extractFloatArray reads back exactly the values written. */
  lemma FloatArrayRoundTrip(values: seq<Float>)
    requires |values| < 0x1_0000_0000
    ensures FloatArray(EncodeFloatArray(values)) == values
  {
    Pow256Widths();
    var data := EncodeFloatArray(values);
    assert data[0..4] == LeBytes(|values|, 4);
    LeValueOfBytes(|values|, 4);
    var r := FloatArray(data);
    assert |r| == |values|;
    forall k | 0 <= k < |values|
      ensures r[k] == values[k]
    {
      EncodeFloatsAt(values, k);
      assert data[4 + 8 * k..4 + 8 * k + 8] == EncodeFloats(values)[8 * k..8 * k + 8];
      PutU64RoundTrip(values[k]);
      assert PutU64(values[k])[0..8] == PutU64(values[k]);
    }
  }

  // ---------------------------------------------------------------------
  // extractGeometryData, parseFBXBinary
  // ---------------------------------------------------------------------

  /** The three float arrays of an FBX file's geometry. */
  datatype Geometry = Geometry(vertices: seq<Float>, normals: seq<Float>, uvs: seq<Float>)

  const NoGeometry: Geometry := Geometry([], [], [])

  /** What one node does to the geometry found so far: the Vertices,
      Normals and UV nodes replace their array, other nodes change nothing;
      a body whose start lies past the node's end is a slice out of range. */
  function ApplyNode(data: seq<byte>, name: string, body: nat, end: nat, g: Geometry): (r: Option<Geometry>)
    requires body <= |data| && end <= |data|
  {
    if name != "Vertices" && name != "Normals" && name != "UV" then Some(g)
    else if body > end then None
    else
      var values := FloatArray(data[body..end]);
      if name == "Vertices" then Some(g.(vertices := values))
      else if name == "Normals" then Some(g.(normals := values))
      else Some(g.(uvs := values))
  }

  /** The walk of extractGeometryData from `offset`, for at most `fuel` more
      nodes. Every node starts at an offset below |data| and where the walk
      goes next depends on that offset alone, so |data| + 1 nodes without
      stopping means an offset came round again and the Go loop never
      ends: that is Diverges. */
  function GeometryWalk(data: seq<byte>, offset: nat, g: Geometry, fuel: nat): Result<Geometry>
    requires offset <= |data| <= SizeLimit
    decreases fuel
  {
    if offset >= |data| then Ok(g)
    else if fuel == 0 then Err(Diverges)
    else match ReadNode(data, offset)
      case Stop => Ok(g)
      case Crash => Err(Panic)
      case Node(name, body, end) =>
        match ApplyNode(data, name, body, end, g)
        case None => Err(Panic)
        case Some(g') => GeometryWalk(data, end, g', fuel - 1)
  }

  function Geometries(data: seq<byte>): Result<Geometry>
    requires |data| <= SizeLimit
  {
    GeometryWalk(data, 0, NoGeometry, |data| + 1)
  }

  /** A later node of the same name overrides an earlier one: once the walk
      reaches a Vertices node, the vertex array found before it no longer
      matters. */
  lemma LaterVerticesOverride(data: seq<byte>, offset: nat, g1: Geometry, g2: Geometry, fuel: nat)
    requires offset < |data| <= SizeLimit && fuel > 0
    requires ReadNode(data, offset).Node? && ReadNode(data, offset).name == "Vertices"
    requires g1.normals == g2.normals && g1.uvs == g2.uvs
    ensures GeometryWalk(data, offset, g1, fuel) == GeometryWalk(data, offset, g2, fuel)
  {
  }

  /** extractGeometryData */
  method ExtractGeometryData(data: seq<byte>) returns (r: Result<Geometry>)
    requires |data| <= SizeLimit
    ensures r == Geometries(data)
  {
    var g := NoGeometry;
    var offset: nat := 0;
    // The Go loop has no such bound; see GeometryWalk.
    var fuel: nat := |data| + 1;
    while offset < |data|
      invariant offset <= |data|
      invariant Geometries(data) == GeometryWalk(data, offset, g, fuel)
      decreases fuel
    {
      if fuel == 0 {
        return Err(Diverges);
      }
      var node := ReadNode(data, offset);
      if node.Stop? {
        break;
      } else if node.Crash? {
        return Err(Panic);
      }
      var endOffset := node.end;
      offset := node.body;
      if node.name == "Vertices" || node.name == "Normals" || node.name == "UV" {
        if offset > endOffset {
          return Err(Panic);
        }
        var values := ExtractFloatArray(data[offset..endOffset]);
        if node.name == "Vertices" {
          g := g.(vertices := values);
        } else if node.name == "Normals" {
          g := g.(normals := values);
        } else {
          g := g.(uvs := values);
        }
      }
      offset := endOffset;
      fuel := fuel - 1;
    }
    r := Ok(g);
  }

  /** parseFBXBinary: the header check, then the walk over the bytes after
      the header (offsets in the walk are relative to byte 27). */
  function ParseFbx(data: seq<byte>): (r: Result<Geometry>)
    requires |data| <= SizeLimit
    ensures CheckHeader(data).Err? ==> r == Err(CheckHeader(data).error)
  {
    match CheckHeader(data)
    case Err(e) => Err(e)
    case Ok(_) => Geometries(data[27..])
  }

  /** The names of the nodes the geometry walk looks for fit in a byte
      each. */
  lemma GeometryNames()
    ensures IsLatin1("Vertices") && IsLatin1("Normals") && IsLatin1("UV")
  {
  }

  predicate GeometryFits(g: Geometry) {
    100 + 8 * (|g.vertices| + |g.normals| + |g.uvs|) <= SizeLimit
  }

  /** The geometry as a writer lays it out after the file header: a
      Vertices, a Normals and a UV node, each holding its float array. */
  function EncodeGeometry(g: Geometry): (r: seq<byte>)
    requires GeometryFits(g)
    ensures |r| == 71 + 8 * (|g.vertices| + |g.normals| + |g.uvs|)
  {
    GeometryNames();
    var n1 := EncodeNode(0, Latin1Bytes("Vertices"), EncodeFloatArray(g.vertices));
    var n2 := EncodeNode(|n1|, Latin1Bytes("Normals"), EncodeFloatArray(g.normals));
    var n3 := EncodeNode(|n1| + |n2|, Latin1Bytes("UV"), EncodeFloatArray(g.uvs));
    n1 + n2 + n3
  }

  /** The geometry after a node of the given name holding these values. */
  function Updated(g: Geometry, name: string, values: seq<Float>): Geometry {
    if name == "Vertices" then g.(vertices := values)
    else if name == "Normals" then g.(normals := values)
    else if name == "UV" then g.(uvs := values)
    else g
  }

  /** An encoded node reads back with its name, body and end, and applying
      it sets the array its name names. */
  lemma NodeOfEncoded(data: seq<byte>, o: nat, end: nat, name: string, values: seq<Float>, g: Geometry)
    requires IsLatin1(name) && |name| < 256 && |values| < 0x1_0000_0000
    requires end == o + 14 + |name| + |EncodeFloatArray(values)| <= |data| <= SizeLimit
    requires data[o..end] == EncodeNode(o, Latin1Bytes(name), EncodeFloatArray(values))
    ensures ReadNode(data, o) == Node(name, o + 14 + |name|, end)
    ensures ApplyNode(data, name, o + 14 + |name|, end, g) == Some(Updated(g, name, values))
  {
    var bytes := Latin1Bytes(name);
    var body := EncodeFloatArray(values);
    var start := o + 14 + |name|;
    ReadNodeOfEncoded(data, o, bytes, body);
    Latin1OfBytes(name);
    assert data[start..end] == EncodeNode(o, bytes, body)[14 + |name|..] == body;
    FloatArrayRoundTrip(values);
  }

  /** One node in the walk: the walk applies it and moves on to its end. */
  lemma GeometryWalkStep(data: seq<byte>, o: nat, name: string, body: nat, end: nat, g: Geometry, g': Geometry, fuel: nat)
    requires o < |data| <= SizeLimit && fuel > 0
    requires ReadNode(data, o) == Node(name, body, end)
    requires ApplyNode(data, name, body, end, g) == Some(g')
    ensures GeometryWalk(data, o, g, fuel) == GeometryWalk(data, end, g', fuel - 1)
  {
  }

  /** Where EncodeGeometry ends its Vertices node and its Normals node. */
  function VerticesEnd(g: Geometry): nat
    requires GeometryFits(g)
  {
    22 + |EncodeFloatArray(g.vertices)|
  }

  function NormalsEnd(g: Geometry): nat
    requires GeometryFits(g)
  {
    VerticesEnd(g) + 21 + |EncodeFloatArray(g.normals)|
  }

  /** Where EncodeGeometry puts each node. */
  lemma VerticesLayout(g: Geometry)
    requires GeometryFits(g) && IsLatin1("Vertices")
    ensures EncodeGeometry(g)[0..VerticesEnd(g)] == EncodeNode(0, Latin1Bytes("Vertices"), EncodeFloatArray(g.vertices))
  {
  }

  lemma NormalsLayout(g: Geometry)
    requires GeometryFits(g) && IsLatin1("Normals")
    ensures EncodeGeometry(g)[VerticesEnd(g)..NormalsEnd(g)] ==
      EncodeNode(VerticesEnd(g), Latin1Bytes("Normals"), EncodeFloatArray(g.normals))
  {
  }

  lemma UVLayout(g: Geometry)
    requires GeometryFits(g) && IsLatin1("UV")
    ensures |EncodeGeometry(g)| == NormalsEnd(g) + 16 + |EncodeFloatArray(g.uvs)|
    ensures EncodeGeometry(g)[NormalsEnd(g)..|EncodeGeometry(g)|] ==
      EncodeNode(NormalsEnd(g), Latin1Bytes("UV"), EncodeFloatArray(g.uvs))
  {
  }

  /** A Vertices, a Normals and a UV node that the walk reads one after
      the other up to the end of the data give the geometry of their
      three arrays. */
  lemma WalkThreeSteps(d: seq<byte>, b0: nat, e1: nat, b1: nat, e2: nat, b2: nat, g: Geometry)
    requires 0 < e1 < |d| && e1 < e2 < |d| <= SizeLimit
    requires ReadNode(d, 0) == Node("Vertices", b0, e1)
    requires ApplyNode(d, "Vertices", b0, e1, NoGeometry) == Some(Updated(NoGeometry, "Vertices", g.vertices))
    requires ReadNode(d, e1) == Node("Normals", b1, e2)
    requires ApplyNode(d, "Normals", b1, e2, Updated(NoGeometry, "Vertices", g.vertices)) ==
      Some(Updated(Updated(NoGeometry, "Vertices", g.vertices), "Normals", g.normals))
    requires ReadNode(d, e2) == Node("UV", b2, |d|)
    requires ApplyNode(d, "UV", b2, |d|, Updated(Updated(NoGeometry, "Vertices", g.vertices), "Normals", g.normals)) ==
      Some(Updated(Updated(Updated(NoGeometry, "Vertices", g.vertices), "Normals", g.normals), "UV", g.uvs))
    ensures Geometries(d) == Ok(g)
  {
    var f := |d| + 1;
    var g1 := Updated(NoGeometry, "Vertices", g.vertices);
    var g2 := Updated(g1, "Normals", g.normals);
    assert Updated(g2, "UV", g.uvs) == g;
    GeometryWalkStep(d, e2, "UV", b2, |d|, g2, g, f - 2);
    assert GeometryWalk(d, |d|, g, f - 3) == Ok(g);
    GeometryWalkStep(d, e1, "Normals", b1, e2, g1, g2, f - 1);
    GeometryWalkStep(d, 0, "Vertices", b0, e1, NoGeometry, g1, f);
  }

  /** The first node EncodeGeometry writes reads back as the vertices. */
  lemma EncodedVertices(g: Geometry)
    requires GeometryFits(g)
    ensures ReadNode(EncodeGeometry(g), 0) == Node("Vertices", 22, VerticesEnd(g))
    ensures ApplyNode(EncodeGeometry(g), "Vertices", 22, VerticesEnd(g), NoGeometry) ==
      Some(Updated(NoGeometry, "Vertices", g.vertices))
  {
    GeometryNames();
    VerticesLayout(g);
    NodeOfEncoded(EncodeGeometry(g), 0, VerticesEnd(g), "Vertices", g.vertices, NoGeometry);
  }

  /** The second node EncodeGeometry writes reads back as the normals. */
  lemma EncodedNormals(g: Geometry, g1: Geometry)
    requires GeometryFits(g)
    ensures ReadNode(EncodeGeometry(g), VerticesEnd(g)) == Node("Normals", VerticesEnd(g) + 21, NormalsEnd(g))
    ensures ApplyNode(EncodeGeometry(g), "Normals", VerticesEnd(g) + 21, NormalsEnd(g), g1) ==
      Some(Updated(g1, "Normals", g.normals))
  {
    GeometryNames();
    NormalsLayout(g);
    NodeOfEncoded(EncodeGeometry(g), VerticesEnd(g), NormalsEnd(g), "Normals", g.normals, g1);
  }

  /** The third node EncodeGeometry writes reads back as the texture
      coordinates and ends the data. */
  lemma EncodedUVs(g: Geometry, g2: Geometry)
    requires GeometryFits(g)
    ensures ReadNode(EncodeGeometry(g), NormalsEnd(g)) == Node("UV", NormalsEnd(g) + 16, |EncodeGeometry(g)|)
    ensures ApplyNode(EncodeGeometry(g), "UV", NormalsEnd(g) + 16, |EncodeGeometry(g)|, g2) ==
      Some(Updated(g2, "UV", g.uvs))
  {
    GeometryNames();
    UVLayout(g);
    NodeOfEncoded(EncodeGeometry(g), NormalsEnd(g), |EncodeGeometry(g)|, "UV", g.uvs, g2);
  }

  /** The walk over what EncodeGeometry wrote finds the geometry that was
      written. */
  lemma GeometriesOfEncoded(g: Geometry)
    requires GeometryFits(g)
    ensures Geometries(EncodeGeometry(g)) == Ok(g)
  {
    var g1 := Updated(NoGeometry, "Vertices", g.vertices);
    var g2 := Updated(g1, "Normals", g.normals);
    EncodedVertices(g);
    EncodedNormals(g, g1);
    EncodedUVs(g, g2);
    WalkThreeSteps(EncodeGeometry(g), 22, VerticesEnd(g), VerticesEnd(g) + 21, NormalsEnd(g), NormalsEnd(g) + 16, g);
  }

  /** Reading back what EncodeGeometry wrote, after a header of version
      7100 or later, gives the geometry that was written. */
  lemma ParseFbxOfEncoded(version: u32, g: Geometry)
    requires version >= MinVersion && GeometryFits(g)
    ensures ParseFbx(Header(version) + EncodeGeometry(g)) == Ok(g)
    ensures FbxImport(Header(version) + EncodeGeometry(g)) == FbxBuild(g, 0)
  {
    var data := Header(version) + EncodeGeometry(g);
    CheckHeaderOfHeader(version, EncodeGeometry(g));
    assert data[27..] == EncodeGeometry(g);
    GeometriesOfEncoded(g);
  }

  /** The vertex ImportFromFBX builds from the k-th coordinate triple, or
      None when one of its reads is out of range: a vertex array whose
      length is not a multiple of three, a normal array that ends inside
      the triple, or a UV array that ends inside the pair. */
  function FbxVertex(g: Geometry, k: nat): Option<Vertex>
    requires 3 * k < |g.vertices|
  {
    var p := 3 * k;
    var uv := 2 * k;
    if p + 2 >= |g.vertices| then None
    else if p < |g.normals| && p + 2 >= |g.normals| then None
    else if uv < |g.uvs| && uv + 1 >= |g.uvs| then None
    else
      Some(Vertex(
        Vec3(g.vertices[p], g.vertices[p + 1], g.vertices[p + 2]),
        if p < |g.normals| then Vec3(g.normals[p], g.normals[p + 1], g.normals[p + 2]) else ZeroVec3,
        if uv < |g.uvs| then Vec2(g.uvs[uv], g.uvs[uv + 1]) else ZeroVec2))
  }

  /** The vertex loop of ImportFromFBX from triple k on: vertices are
      appended one by one, and a panic leaves those already appended. */
  function FbxBuild(g: Geometry, k: nat): Built
    decreases |g.vertices| - 3 * k
  {
    if 3 * k >= |g.vertices| then ([], Pass)
    else match FbxVertex(g, k)
      case None => ([], Fail(Panic))
      case Some(v) =>
        PrependBuilt([v], FbxBuild(g, k + 1))
  }

  /** vs are the vertices of the triples k, k + 1, ... in order. */
  predicate FbxVerticesFrom(g: Geometry, k: nat, vs: seq<Vertex>) {
    forall i :: k <= i < k + |vs| ==> 3 * i < |g.vertices| && FbxVertex(g, i) == Some(vs[i - k])
  }

  lemma FbxVerticesFromCons(g: Geometry, k: nat, v: Vertex, vs: seq<Vertex>)
    requires 3 * k < |g.vertices| && FbxVertex(g, k) == Some(v) && FbxVerticesFrom(g, k + 1, vs)
    ensures FbxVerticesFrom(g, k, [v] + vs)
  {
    var w := [v] + vs;
    forall i | k <= i < k + |w|
      ensures 3 * i < |g.vertices| && FbxVertex(g, i) == Some(w[i - k])
    {
      if i > k {
        assert w[i - k] == vs[i - (k + 1)];
      }
    }
  }

  /** The vertex loop appends, in order, the vertices of the triples before
      the first that panics, and fails only with a panic. */
  lemma {:induction false} FbxBuildMeaning(g: Geometry, k: nat)
    ensures FbxVerticesFrom(g, k, FbxBuild(g, k).0)
    ensures FbxBuild(g, k).1 == Pass ==> 3 * (k + |FbxBuild(g, k).0|) >= |g.vertices|
    ensures FbxBuild(g, k).1.Fail? ==>
      FbxBuild(g, k).1 == Fail(Panic) && 3 * (k + |FbxBuild(g, k).0|) < |g.vertices| &&
      FbxVertex(g, k + |FbxBuild(g, k).0|).None?
    decreases |g.vertices| - 3 * k
  {
    if 3 * k < |g.vertices| && FbxVertex(g, k).Some? {
      FbxBuildMeaning(g, k + 1);
      var v := FbxVertex(g, k).value;
      var rest := FbxBuild(g, k + 1);
      assert FbxBuild(g, k) == ([v] + rest.0, rest.1);
      FbxVerticesFromCons(g, k, v, rest.0);
      assert k + |[v] + rest.0| == (k + 1) + |rest.0|;
    } else if 3 * k < |g.vertices| {
      assert FbxBuild(g, k) == ([], Fail(Panic));
    } else {
      assert FbxBuild(g, k) == ([], Pass);
    }
  }

  /** When the vertex loop of ImportFromFBX finishes without a panic: the
      vertex array is whole triples, the normal array does not end inside
      one of them, and the UV array does not end inside one of its pairs.
      It then yields one vertex per triple. */
  lemma {:induction false} FbxBuildPasses(g: Geometry, k: nat)
    requires 3 * k <= |g.vertices| && (|g.vertices| - 3 * k) % 3 == 0
    ensures FbxBuild(g, k).1 == Pass <==>
      (3 * k >= |g.normals| || |g.normals| >= |g.vertices| || |g.normals| % 3 == 0) &&
      (2 * k >= |g.uvs| || |g.uvs| >= 2 * (|g.vertices| / 3) || |g.uvs| % 2 == 0)
    ensures FbxBuild(g, k).1 == Pass ==> |FbxBuild(g, k).0| == |g.vertices| / 3 - k
    decreases |g.vertices| - 3 * k
  {
    if 3 * k < |g.vertices| {
      FbxBuildPasses(g, k + 1);
    }
  }

  /** ImportFromFBX as a whole: the vertices it appends and its outcome. */
  function FbxImport(data: seq<byte>): Built
    requires |data| <= SizeLimit
  {
    match ParseFbx(data)
    case Err(e) => ([], Fail(e))
    case Ok(g) => FbxBuild(g, 0)
  }

  // ---------------------------------------------------------------------
  // VertexImporter
  // ---------------------------------------------------------------------

  class VertexImporter {
    var vertices: seq<Vertex>

    /** NewVertexImporter */
    constructor ()
      ensures vertices == []
    {
      vertices := [];
    }

    /** GetVertices */
    function GetVertices(): seq<Vertex>
      reads this
    {
      vertices
    }

    /** processFace */
    method ProcessFace(faceData: seq<string>, t: Tables) returns (o: Outcome)
      modifies this
      ensures vertices == old(vertices) + Face(faceData, t).0
      ensures o == Face(faceData, t).1
    {
      if |faceData| < 3 {
        return Fail(FaceTooSmall);
      }
      ghost var v0, built: seq<Vertex> := vertices, [];
      assert faceData[0..] == faceData;
      PrependBuiltNothing(FaceBuild(faceData, t));
      for i := 0 to |faceData|
        invariant vertices == v0 + built
        invariant FaceBuild(faceData, t) == PrependBuilt(built, FaceBuild(faceData[i..], t))
      {
        FaceBuildStep(faceData, i, t);
        var r := BuildFaceVertex(faceData[i], t);
        if r.Err? {
          assert vertices == v0 + FaceBuild(faceData, t).0 by {
            assert built + [] == built;
          }
          return Fail(r.error);
        }
        var vertex := r.value;
        PrependBuiltAppend(built, [vertex], FaceBuild(faceData[i + 1..], t));
        AppendAssoc(v0, built, [vertex]);
        vertices := vertices + [vertex];
        built := built + [vertex];
      }
      assert faceData[|faceData|..] == [];
      o := Pass;
    }

    /** One line of ImportFromOBJ: updates the tables, appends the vertices
        of a face. */
    method ImportLine(fops: FloatOps, rawLine: string, t: Tables) returns (t': Tables, o: Outcome)
      modifies this
      ensures t' == ObjLine(fops, rawLine, t).0
      ensures vertices == old(vertices) + ObjLine(fops, rawLine, t).1
      ensures o == ObjLine(fops, rawLine, t).2
    {
      var line := TrimSpace(rawLine);
      if line == "" || line[0] == '#' {
        return t, Pass;
      }
      t', o := ImportFields(fops, Fields(line), t);
    }

    /** The fields of a line that is not blank or a comment. */
    method ImportFields(fops: FloatOps, fields: seq<string>, t: Tables) returns (t': Tables, o: Outcome)
      modifies this
      ensures t' == ObjFields(fops, fields, t).0
      ensures vertices == old(vertices) + ObjFields(fops, fields, t).1
      ensures o == ObjFields(fops, fields, t).2
    {
      t' := t;
      o := Pass;
      if |fields| < 2 {
        return;
      }
      if fields[0] == "v" {
        if |fields| < 4 {
          return t, Fail(InvalidLine("invalid vertex position"));
        }
        var pos := ParseVector3(fops, fields[1..4]);
        if pos.Err? {
          return t, Fail(pos.error);
        }
        t' := t.(positions := t.positions + [pos.value]);
      } else if fields[0] == "vn" {
        if |fields| < 4 {
          return t, Fail(InvalidLine("invalid vertex normal"));
        }
        var normal := ParseVector3(fops, fields[1..4]);
        if normal.Err? {
          return t, Fail(normal.error);
        }
        t' := t.(normals := t.normals + [normal.value]);
      } else if fields[0] == "vt" {
        if |fields| < 3 {
          return t, Fail(InvalidLine("invalid texture coordinates"));
        }
        var tex := ParseVector2(fops, fields[1..3]);
        if tex.Err? {
          return t, Fail(tex.error);
        }
        t' := t.(texCoords := t.texCoords + [tex.value]);
      } else if fields[0] == "f" {
        o := ProcessFace(fields[1..], t);
      }
    }

    /** ImportFromOBJ: the lines of the text in order; the first error ends
        the import, keeping the vertices appended before it. */
    method ImportFromOBJ(fops: FloatOps, text: string) returns (o: Outcome)
      modifies this
      ensures vertices == old(vertices) + ObjImport(fops, text).0
      ensures o == ObjImport(fops, text).1
    {
      var lines := ScanLines(text);
      var t := EmptyTables;
      ghost var v0, built: seq<Vertex> := vertices, [];
      PrependBuiltNothing(ObjImport(fops, text));
      for i := 0 to |lines|
        invariant vertices == v0 + built
        invariant ObjImport(fops, text) == PrependBuilt(built, ObjFrom(fops, lines, i, t))
      {
        ObjImportStep(ObjImport(fops, text), fops, lines, i, t, built);
        var t', lineOutcome := ImportLine(fops, lines[i], t);
        ghost var added := ObjLine(fops, lines[i], t).1;
        AppendAssoc(v0, built, added);
        if lineOutcome.Fail? {
          return lineOutcome;
        }
        built := built + added;
        t := t';
      }
      ObjImportDone(ObjImport(fops, text), fops, lines, t, built);
      o := Pass;
    }

    /** ImportFromFBX: the whole input is in memory, so reading it cannot
        fail. */
    method ImportFromFBX(data: seq<byte>) returns (o: Outcome)
      requires |data| <= SizeLimit
      modifies this
      ensures vertices == old(vertices) + FbxImport(data).0
      ensures o == FbxImport(data).1
    {
      var header := CheckHeader(data);
      if header.Err? {
        return Fail(header.error);
      }
      var parsed := ExtractGeometryData(data[27..]);
      if parsed.Err? {
        return Fail(parsed.error);
      }
      var g := parsed.value;
      ghost var v0, built: seq<Vertex> := vertices, [];
      PrependBuiltNothing(FbxBuild(g, 0));
      var i := 0;
      while i < |g.vertices|
        invariant i % 3 == 0
        invariant vertices == v0 + built
        invariant FbxImport(data) == PrependBuilt(built, FbxBuild(g, i / 3))
        decreases |g.vertices| - i
      {
        assert i / 3 * 2 == 2 * (i / 3) && 3 * (i / 3) == i;
        assert FbxVertex(g, i / 3).None? ==> FbxBuild(g, i / 3) == ([], Fail(Panic));
        assert built + [] == built;
        if i + 2 >= |g.vertices| {
          return Fail(Panic);
        }
        var vertex := Vertex(Vec3(g.vertices[i], g.vertices[i + 1], g.vertices[i + 2]), ZeroVec3, ZeroVec2);
        if i < |g.normals| {
          if i + 2 >= |g.normals| {
            return Fail(Panic);
          }
          vertex := vertex.(normal := Vec3(g.normals[i], g.normals[i + 1], g.normals[i + 2]));
        }
        if i / 3 * 2 < |g.uvs| {
          if i / 3 * 2 + 1 >= |g.uvs| {
            return Fail(Panic);
          }
          vertex := vertex.(texCoords := Vec2(g.uvs[i / 3 * 2], g.uvs[i / 3 * 2 + 1]));
        }
        assert FbxVertex(g, i / 3) == Some(vertex);
        PrependBuiltAppend(built, [vertex], FbxBuild(g, i / 3 + 1));
        AppendAssoc(v0, built, [vertex]);
        assert (i + 3) / 3 == i / 3 + 1;
        vertices := vertices + [vertex];
        built := built + [vertex];
        i := i + 3;
      }
      assert FbxBuild(g, i / 3) == ([], Pass);
      o := Pass;
    }
  }
}
