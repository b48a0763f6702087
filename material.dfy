/** The material importer of pkg/importers/material.go: materials read
    from MTL text (the material library of an OBJ model) and from the
    Material nodes of a binary FBX file, kept in a table keyed by name. */
module Materials {
  import opened Common
  import opened Text
  import opened Fbx
  import opened Vertices

  datatype Material = Material(
    name: string,
    ambient: Vec3,
    diffuse: Vec3,
    specular: Vec3,
    shininess: Float,
    diffuseMap: string,
    normalMap: string,
    specularMap: string,
    transparency: Float)

  /** A material with only its name set, every other field zero. */
  function Fresh(name: string): (m: Material)
    ensures m.name == name
  {
    Material(name, ZeroVec3, ZeroVec3, ZeroVec3, FloatZero, "", "", "", FloatZero)
  }

  /** Every material is stored under its own name. */
  predicate KeyedByName(materials: map<string, Material>) {
    forall k :: k in materials ==> materials[k].name == k
  }

  // ---------------------------------------------------------------------
  // MTL text
  // ---------------------------------------------------------------------

  /** A value an MTL line sets on the current material. */
  datatype Property =
    | Ambient(color: Vec3)
    | Diffuse(color: Vec3)
    | Specular(color: Vec3)
    | Shininess(value: Float)
    | Transparency(value: Float)
    | DiffuseMap(path: string)
    | NormalMap(path: string)
    | SpecularMap(path: string)

  /** Setting one property changes that field and no other. */
  function Apply(m: Material, p: Property): (r: Material)
    ensures r.name == m.name
  {
    match p
    case Ambient(c) => m.(ambient := c)
    case Diffuse(c) => m.(diffuse := c)
    case Specular(c) => m.(specular := c)
    case Shininess(v) => m.(shininess := v)
    case Transparency(v) => m.(transparency := v)
    case DiffuseMap(path) => m.(diffuseMap := path)
    case NormalMap(path) => m.(normalMap := path)
    case SpecularMap(path) => m.(specularMap := path)
  }

  /** The keywords that set a property of the current material. */
  predicate IsPropertyKeyword(keyword: string) {
    keyword in {"Ka", "Kd", "Ks", "Ns", "d", "Tr", "map_Kd", "map_Bump", "bump", "map_Ks"}
  }

  /** What the "specified before material" error of a keyword names. */
  function Subject(keyword: string): string
    requires IsPropertyKeyword(keyword)
  {
    if keyword == "Ka" then "ambient color"
    else if keyword == "Kd" then "diffuse color"
    else if keyword == "Ks" then "specular color"
    else if keyword == "Ns" then "shininess"
    else if keyword == "d" || keyword == "Tr" then "transparency"
    else if keyword == "map_Kd" then "diffuse map"
    else if keyword == "map_Ks" then "specular map"
    else "normal map"
  }

  /** The property a keyword line sets: colours are the first three values,
      numbers the first value (Tr stored as one minus it), map paths the
      remaining fields joined by single spaces. */
  function PropertyOf(fops: FloatOps, fields: seq<string>): (r: Result<Property>)
    requires |fields| >= 2 && IsPropertyKeyword(fields[0])
    ensures fields[0] in {"Ka", "Kd", "Ks"} ==>
      (r.Ok? <==> Vector3Of(fops, fields[1..]).Ok?) &&
      (r.Err? ==> r.error == InvalidValue(Subject(fields[0]), Vector3Of(fops, fields[1..]).error))
    ensures fields[0] == "Ka" && r.Ok? ==> r.value == Ambient(Vector3Of(fops, fields[1..]).value)
    ensures fields[0] == "Kd" && r.Ok? ==> r.value == Diffuse(Vector3Of(fops, fields[1..]).value)
    ensures fields[0] == "Ks" && r.Ok? ==> r.value == Specular(Vector3Of(fops, fields[1..]).value)
    ensures fields[0] in {"Ns", "d", "Tr"} ==> (r.Ok? <==> fops.parse(fields[1]).Some?)
    ensures fields[0] == "Ns" && r.Ok? ==> r.value == Shininess(fops.parse(fields[1]).value)
    ensures fields[0] == "d" && r.Ok? ==> r.value == Transparency(fops.parse(fields[1]).value)
    ensures fields[0] == "Tr" && r.Ok? ==> r.value == Transparency(fops.oneMinus(fops.parse(fields[1]).value))
    ensures fields[0] == "map_Kd" ==> r == Ok(DiffuseMap(JoinSpace(fields[1..])))
    ensures fields[0] in {"map_Bump", "bump"} ==> r == Ok(NormalMap(JoinSpace(fields[1..])))
    ensures fields[0] == "map_Ks" ==> r == Ok(SpecularMap(JoinSpace(fields[1..])))
  {
    var keyword := fields[0];
    if keyword == "Ka" || keyword == "Kd" || keyword == "Ks" then
      match Vector3Of(fops, fields[1..])
      case Err(e) => Err(InvalidValue(Subject(keyword), e))
      case Ok(c) => Ok(if keyword == "Ka" then Ambient(c) else if keyword == "Kd" then Diffuse(c) else Specular(c))
    else if keyword == "Ns" then
      match fops.parse(fields[1])
      case None => Err(InvalidValue("shininess value", BadNumber(fields[1])))
      case Some(v) => Ok(Shininess(v))
    else if keyword == "d" || keyword == "Tr" then
      match fops.parse(fields[1])
      case None => Err(InvalidValue("transparency value", BadNumber(fields[1])))
      case Some(v) => Ok(Transparency(if keyword == "Tr" then fops.oneMinus(v) else v))
    else
      var path := JoinSpace(fields[1..]);
      Ok(if keyword == "map_Kd" then DiffuseMap(path) else if keyword == "map_Ks" then SpecularMap(path) else NormalMap(path))
  }

  /** What one MTL line asks for. */
  datatype Command = Skip | Begin(name: string) | Set(property: Property) | Reject(error: Error)

  /** The command of the fields of a line that is not blank or a comment;
      `hasCurrent` says whether a newmtl line came before. */
  function FieldsCommand(fops: FloatOps, fields: seq<string>, hasCurrent: bool): (c: Command)
    ensures c.Set? ==> hasCurrent
    ensures |fields| >= 2 && fields[0] == "newmtl" ==> c == Begin(JoinSpace(fields[1..]))
    ensures |fields| >= 2 && IsPropertyKeyword(fields[0]) && !hasCurrent ==>
      c == Reject(SpecifiedBeforeMaterial(Subject(fields[0])))
    ensures |fields| < 2 || (fields[0] != "newmtl" && !IsPropertyKeyword(fields[0])) ==> c == Skip
  {
    if |fields| < 2 then Skip
    else if fields[0] == "newmtl" then Begin(JoinSpace(fields[1..]))
    else if IsPropertyKeyword(fields[0]) then
      if !hasCurrent then Reject(SpecifiedBeforeMaterial(Subject(fields[0])))
      else match PropertyOf(fops, fields)
        case Err(e) => Reject(e)
        case Ok(p) => Set(p)
    else Skip
  }

  /** The command of one line: blank and '#' lines are skipped. */
  function LineCommand(fops: FloatOps, line: string, hasCurrent: bool): (c: Command)
    ensures c.Set? ==> hasCurrent
  {
    var trimmed := TrimSpace(line);
    if trimmed == "" || trimmed[0] == '#' then Skip
    else FieldsCommand(fops, Fields(trimmed), hasCurrent)
  }

  /** The material table and the name of the current material. */
  datatype MtlState = MtlState(materials: map<string, Material>, current: Option<string>)

  /** The current material is in the table, and every material is stored
      under its own name. */
  predicate Tracks(s: MtlState) {
    (s.current.Some? ==> s.current.value in s.materials) && KeyedByName(s.materials)
  }

  /** The state after a command, or the error that ends the import. */
  function Perform(s: MtlState, c: Command): (r: Result<MtlState>)
    requires Tracks(s) && (c.Set? ==> s.current.Some?)
    ensures r.Ok? ==> Tracks(r.value)
    ensures r.Ok? ==> s.materials.Keys <= r.value.materials.Keys
  {
    match c
    case Skip => Ok(s)
    case Reject(e) => Err(e)
    case Begin(name) => Ok(MtlState(s.materials[name := Fresh(name)], Some(name)))
    case Set(p) =>
      var name := s.current.value;
      Ok(s.(materials := s.materials[name := Apply(s.materials[name], p)]))
  }

  function MtlLine(fops: FloatOps, line: string, s: MtlState): (r: Result<MtlState>)
    requires Tracks(s)
    ensures r.Ok? ==> Tracks(r.value)
  {
    Perform(s, LineCommand(fops, line, s.current.Some?))
  }

  /** The lines from the i-th on: the table when the lines run out or when
      a line is rejected (the changes of the lines before it are kept),
      and the outcome. */
  function MtlFrom(fops: FloatOps, lines: seq<string>, i: nat, s: MtlState): (map<string, Material>, Outcome)
    requires i <= |lines| && Tracks(s)
    decreases |lines| - i
  {
    if i == |lines| then (s.materials, Pass)
    else match MtlLine(fops, lines[i], s)
      case Err(e) => (s.materials, Fail(e))
      case Ok(s') => MtlFrom(fops, lines, i + 1, s')
  }

  /** ImportFromOBJ (MTL) on a whole text, starting from the table m with
      no current material. */
  function MtlImport(fops: FloatOps, text: string, m: map<string, Material>): (map<string, Material>, Outcome)
    requires KeyedByName(m)
  {
    MtlFrom(fops, ScanLines(text), 0, MtlState(m, None))
  }

  /** An MTL import never removes a material and keeps every material
      under its own name, whether it succeeds or not. */
  lemma {:induction false} MtlFromKeeps(fops: FloatOps, lines: seq<string>, i: nat, s: MtlState)
    requires i <= |lines| && Tracks(s)
    ensures s.materials.Keys <= MtlFrom(fops, lines, i, s).0.Keys
    ensures KeyedByName(MtlFrom(fops, lines, i, s).0)
    decreases |lines| - i
  {
    if i < |lines| && MtlLine(fops, lines[i], s).Ok? {
      MtlFromKeeps(fops, lines, i + 1, MtlLine(fops, lines[i], s).value);
    }
  }

  /** A line changes at most the material it leaves current (a property
      line the current one, a newmtl line the one it names) and adds no
      other name; every other material is left as it was. */
  lemma PerformFrame(s: MtlState, c: Command)
    requires Tracks(s) && (c.Set? ==> s.current.Some?) && Perform(s, c).Ok?
    ensures var r := Perform(s, c).value;
      r.materials.Keys == s.materials.Keys + (if r.current.Some? then {r.current.value} else {}) &&
      forall k :: k in s.materials && Some(k) != r.current ==> r.materials[k] == s.materials[k]
  {
  }

  /** A property is set on the current material. */
  lemma PerformSet(s: MtlState, p: Property)
    requires Tracks(s) && s.current.Some?
    ensures Perform(s, Set(p)) ==
      Ok(s.(materials := s.materials[s.current.value := Apply(s.materials[s.current.value], p)]))
  {
  }

  lemma MtlLineFrame(fops: FloatOps, line: string, s: MtlState)
    requires Tracks(s) && MtlLine(fops, line, s).Ok?
    ensures var r := MtlLine(fops, line, s).value;
      r.materials.Keys == s.materials.Keys + (if r.current.Some? then {r.current.value} else {}) &&
      forall k :: k in s.materials && Some(k) != r.current ==> r.materials[k] == s.materials[k]
  {
    PerformFrame(s, LineCommand(fops, line, s.current.Some?));
  }

  /** A line of words joined by single spaces, not starting with '#', has
      those words as its fields. */
  lemma LineCommandOfWords(fops: FloatOps, ws: seq<string>, hasCurrent: bool)
    requires Words(ws) && ws != [] && ws[0][0] != '#'
    ensures LineCommand(fops, JoinSpace(ws), hasCurrent) == FieldsCommand(fops, ws, hasCurrent)
  {
    JoinSpaceEnds(ws);
    TrimSpaceOfJoinSpace(ws);
    FieldsOfJoinSpace(ws);
  }

  /** Any property line before the first newmtl is rejected, whatever its
      values, and the table is left as it was. */
  lemma PropertyBeforeMaterial(fops: FloatOps, ws: seq<string>, m: map<string, Material>, rest: seq<string>)
    requires Words(ws) && |ws| >= 2 && IsPropertyKeyword(ws[0]) && KeyedByName(m)
    ensures MtlFrom(fops, [JoinSpace(ws)] + rest, 0, MtlState(m, None)) ==
      (m, Fail(SpecifiedBeforeMaterial(Subject(ws[0]))))
  {
    LineCommandOfWords(fops, ws, false);
  }

  /** "newmtl" followed by a name starts a fresh material under the name,
      replacing any material of that name, and makes it current. */
  lemma NewMaterialLine(fops: FloatOps, name: seq<string>, s: MtlState)
    requires Words(name) && name != [] && Tracks(s)
    ensures MtlLine(fops, JoinSpace(["newmtl"] + name), s) ==
      Ok(MtlState(s.materials[JoinSpace(name) := Fresh(JoinSpace(name))], Some(JoinSpace(name))))
  {
    var ws := ["newmtl"] + name;
    WordsCons("newmtl", name);
    LineCommandOfWords(fops, ws, s.current.Some?);
    assert ws[1..] == name;
  }

  /** The stored transparency of "Tr v" is one minus v, of "d v" v itself. */
  function StoredTransparency(fops: FloatOps, keyword: string, v: Float): Float {
    if keyword == "Tr" then fops.oneMinus(v) else v
  }

  lemma TransparencyCommand(fops: FloatOps, keyword: string, x: string)
    requires keyword in {"d", "Tr"} && x != [] && NoSpace(x) && fops.parse(x).Some?
    ensures LineCommand(fops, JoinSpace([keyword, x]), true) ==
      Set(Transparency(StoredTransparency(fops, keyword, fops.parse(x).value)))
  {
    var ws := [keyword, x];
    assert Words(ws) by {
      forall i | 0 <= i < |ws| ensures ws[i] != [] && NoSpace(ws[i]) {
      }
    }
    LineCommandOfWords(fops, ws, true);
    var v := fops.parse(x).value;
    if keyword == "d" {
      assert PropertyOf(fops, ws) == Ok(Transparency(v));
    } else {
      assert PropertyOf(fops, ws) == Ok(Transparency(fops.oneMinus(v)));
    }
  }

  /** "Tr v" on the current material stores one minus v as its
      transparency; "d v" stores v itself. Nothing else changes. */
  lemma TransparencyLine(fops: FloatOps, keyword: string, x: string, s: MtlState)
    requires keyword in {"d", "Tr"} && x != [] && NoSpace(x) && fops.parse(x).Some?
    requires Tracks(s) && s.current.Some?
    ensures MtlLine(fops, JoinSpace([keyword, x]), s) ==
      Ok(s.(materials := s.materials[s.current.value :=
        s.materials[s.current.value].(transparency := StoredTransparency(fops, keyword, fops.parse(x).value))]))
  {
    var v := StoredTransparency(fops, keyword, fops.parse(x).value);
    var m := s.materials[s.current.value];
    assert Apply(m, Transparency(v)) == m.(transparency := v);
    TransparencyCommand(fops, keyword, x);
    assert MtlLine(fops, JoinSpace([keyword, x]), s) == Perform(s, Set(Transparency(v)));
    PerformSet(s, Transparency(v));
  }

  // ---------------------------------------------------------------------
  // FBX Material nodes
  // ---------------------------------------------------------------------

  const U32Modulus: nat := 0x1_0000_0000

  /** parseColor: three little-endian float64 bit patterns. */
  function Color(data: seq<byte>, at: nat): Vec3
    requires at + 24 <= |data|
  {
    Vec3(LeU64(data, at), LeU64(data, at + 8), LeU64(data, at + 16))
  }

  /** The FBX property names parseMaterialNode reads a colour for. */
  predicate IsColorName(name: string) {
    name in {"AmbientColor", "DiffuseColor", "SpecularColor"}
  }

  /** The colour field an FBX colour property sets. */
  function SetColor(m: Material, name: string, c: Vec3): Material
    requires IsColorName(name)
  {
    if name == "AmbientColor" then m.(ambient := c)
    else if name == "DiffuseColor" then m.(diffuse := c)
    else m.(specular := c)
  }

  /** One property record of parseMaterialNode, whose value starts at
      `value` in a node that begins at `base` in the file. The node is a Go
      slice of the whole file, so a value may be resliced up to the end of
      the file but not beyond it; the uint32 end of a Name that wraps
      around gives a slice whose bounds are reversed. Either way the slice
      panics. The properties it does not know leave the material as it is. */
  function ReadProperty(full: seq<byte>, base: nat, name: string, value: nat, propLen: u32, m: Material): Result<Material>
    requires base <= |full| <= SizeLimit && value < U32Modulus
  {
    var cap := |full| - base;
    if name == "Name" then
      var high := (value + propLen) % U32Modulus;
      if high < value || high > cap then Err(Panic)
      else Ok(m.(name := Latin1(full[base + value..base + high])))
    else if IsColorName(name) then
      if value + 24 > cap then Err(Panic) else Ok(SetColor(m, name, Color(full, base + value)))
    else if name == "Shininess" then
      if value + 8 > cap then Err(Panic) else Ok(m.(shininess := LeU64(full, base + value)))
    else Ok(m)
  }

  /** A property panics exactly when its value runs past the end of the
      file (a Name whose uint32 end wraps around does too); otherwise it
      sets the field its name names, and a name it does not know changes
      nothing. */
  lemma ReadPropertyMeaning(full: seq<byte>, base: nat, name: string, value: nat, propLen: u32, m: Material)
    requires base <= |full| <= SizeLimit && value < U32Modulus
    ensures ReadProperty(full, base, name, value, propLen, m).Err? <==>
      (name == "Name" && base + value + propLen > |full|) ||
      (IsColorName(name) && base + value + 24 > |full|) ||
      (name == "Shininess" && base + value + 8 > |full|)
    ensures ReadProperty(full, base, name, value, propLen, m).Err? ==>
      ReadProperty(full, base, name, value, propLen, m).error == Panic
    ensures name == "Name" && base + value + propLen <= |full| ==>
      ReadProperty(full, base, name, value, propLen, m) == Ok(m.(name := Latin1(full[base + value..base + value + propLen])))
    ensures IsColorName(name) && base + value + 24 <= |full| ==>
      ReadProperty(full, base, name, value, propLen, m) == Ok(SetColor(m, name, Color(full, base + value)))
    ensures name == "Shininess" && base + value + 8 <= |full| ==>
      ReadProperty(full, base, name, value, propLen, m) == Ok(m.(shininess := LeU64(full, base + value)))
    ensures name != "Name" && !IsColorName(name) && name != "Shininess" ==>
      ReadProperty(full, base, name, value, propLen, m) == Ok(m)
  {
    if name == "Name" && value + propLen >= U32Modulus {
      assert (value + propLen) % U32Modulus == value + propLen - U32Modulus;
    }
  }

  /** What parseMaterialNode finds at an offset inside a node. */
  datatype RecordStep =
    | End                                          // the loop breaks
    | Overrun                                      // the name-length byte lies past the node: a Go panic
    | Record(propLen: u32, name: string, value: nat)  // the value length, the name, where the value starts

  /** The header of the property record at `offset` in the node
      full[base..base + len]: a little-endian uint32 value length, a
      name-length byte read without a bounds check, and the name. A
      header or name that runs past the node ends the loop. */
  function ReadRecord(full: seq<byte>, base: nat, len: nat, offset: nat): (r: RecordStep)
    requires base + len <= |full| && offset < len
    ensures r.Record? ==> offset + 5 <= r.value <= len
  {
    if offset + 4 > len then End
    else
      var at := offset + 4;
      if at >= len then Overrun
      else
        var start := at + 1;
        var value := start + full[base + at] as nat;
        if value > len then End
        else Record(LeU32(full, base + offset), Latin1(full[base + start..base + value]), value)
  }

  /** The loop of parseMaterialNode over the node full[base..base + len],
      from the record at `offset`; the next record starts after the value,
      at a uint32 offset that may wrap around. The next offset depends on
      the current one only and every pass starts below `len`, so a loop
      that has not ended after `len + 1` passes has come back to an offset
      it read before and would go on forever: running out of `fuel` is
      Diverges. */
  function NodeProps(full: seq<byte>, base: nat, len: nat, offset: nat, m: Material, fuel: nat): Result<Material>
    requires base + len <= |full| <= SizeLimit && offset < U32Modulus
    decreases fuel, 1
  {
    if offset >= len then Ok(m)
    else if fuel == 0 then Err(Diverges)
    else NodePass(full, base, len, offset, m, fuel)
  }

  /** One pass of that loop, at a record that starts inside the node: its
      header and its property are read, then the loop goes on after the
      value. */
  function NodePass(full: seq<byte>, base: nat, len: nat, offset: nat, m: Material, fuel: nat): Result<Material>
    requires base + len <= |full| <= SizeLimit && offset < len && fuel > 0
    decreases fuel, 0
  {
    match ReadRecord(full, base, len, offset)
    case End => Ok(m)
    case Overrun => Err(Panic)
    case Record(propLen, name, value) =>
      match ReadProperty(full, base, name, value, propLen, m)
      case Err(e) => Err(e)
      case Ok(m') => NodeProps(full, base, len, (value + propLen) % U32Modulus, m', fuel - 1)
  }

  /** parseMaterialNode: the records of a node from its first byte, on a
      material with every field zero. */
  function MaterialNode(full: seq<byte>, base: nat, len: nat): Result<Material>
    requires base + len <= |full| <= SizeLimit
  {
    NodeProps(full, base, len, 0, Fresh(""), len + 1)
  }

  /** The loop of parseFBXMaterials from `offset`: each Material node is
      parsed and stored under the name it sets, replacing an earlier one;
      other nodes are skipped. A node whose end lies before its body
      slices out of range. `fuel` is bounded as in NodeProps. */
  function MaterialWalk(data: seq<byte>, offset: nat, found: map<string, Material>, fuel: nat): (r: Result<map<string, Material>>)
    requires offset <= |data| <= SizeLimit
    requires KeyedByName(found)
    ensures r.Ok? ==> KeyedByName(r.value) && found.Keys <= r.value.Keys
    decreases fuel, 1
  {
    if offset >= |data| then Ok(found)
    else if fuel == 0 then Err(Diverges)
    else WalkPass(data, offset, found, fuel)
  }

  /** One pass of that loop, at a node that starts inside the data. */
  function WalkPass(data: seq<byte>, offset: nat, found: map<string, Material>, fuel: nat): (r: Result<map<string, Material>>)
    requires offset < |data| <= SizeLimit && KeyedByName(found) && fuel > 0
    ensures r.Ok? ==> KeyedByName(r.value) && found.Keys <= r.value.Keys
    decreases fuel, 0
  {
    match ReadNode(data, offset)
    case Stop => Ok(found)
    case Crash => Err(Panic)
    case Node(name, body, end) =>
      if name != "Material" then MaterialWalk(data, end, found, fuel - 1)
      else if body > end then Err(Panic)
      else
        match MaterialNode(data, body, end - body)
        case Err(e) => Err(e)
        case Ok(m) => MaterialWalk(data, end, found[m.name := m], fuel - 1)
  }

  /** parseFBXMaterials: the header check, then the walk from byte 27. */
  function FbxMaterials(data: seq<byte>): (r: Result<map<string, Material>>)
    requires |data| <= SizeLimit
    ensures r.Ok? ==> KeyedByName(r.value)
    ensures CheckHeader(data).Err? ==> r == Err(CheckHeader(data).error)
  {
    match CheckHeader(data)
    case Err(e) => Err(e)
    case Ok(_) => MaterialWalk(data, 27, map[], |data| + 1)
  }

  /** What one pass of a parsing loop leaves: the loop's result, or the
      offset and state the next pass starts from. */
  datatype Pass<T> = Done(result: Result<T>) | Next(offset: nat, state: T)

  /** One pass of parseMaterialNode's loop, at a record inside the node. */
  method MaterialNodePass(full: seq<byte>, base: nat, len: nat, offset: nat, m: Material, fuel: nat)
    returns (p: Pass<Material>)
    requires base + len <= |full| <= SizeLimit && offset < len && fuel > 0
    ensures p.Done? ==> p.result == NodeProps(full, base, len, offset, m, fuel)
    ensures p.Next? ==> p.offset < U32Modulus
    ensures p.Next? ==> NodeProps(full, base, len, offset, m, fuel) == NodeProps(full, base, len, p.offset, p.state, fuel - 1)
  {
    assert NodeProps(full, base, len, offset, m, fuel) == NodePass(full, base, len, offset, m, fuel);
    var record := ReadRecord(full, base, len, offset);
    if record.End? {
      return Done(Ok(m));
    } else if record.Overrun? {
      return Done(Err(Panic));
    }
    var read := ReadProperty(full, base, record.name, record.value, record.propLen, m);
    if read.Err? {
      return Done(Err(read.error));
    }
    var next := (record.value + record.propLen) % U32Modulus;
    NodePropsPass(full, base, len, offset, record.propLen, record.name, record.value, next, m, read.value, fuel);
    p := Next(next, read.value);
  }

  /** parseMaterialNode, as the loop it is. The node is passed as the file
      and the node's start and length, which is what a Go slice of the
      file holds. */
  method ParseMaterialNode(full: seq<byte>, base: nat, len: nat) returns (r: Result<Material>)
    requires base + len <= |full| <= SizeLimit
    ensures r == MaterialNode(full, base, len)
  {
    var m := Fresh("");
    var offset: nat := 0;
    // The Go loop has no such bound; see NodeProps.
    var fuel: nat := len + 1;
    ghost var whole := MaterialNode(full, base, len);
    while offset < len
      invariant offset < U32Modulus
      invariant whole == NodeProps(full, base, len, offset, m, fuel)
      decreases fuel
    {
      if fuel == 0 {
        return Err(Diverges);
      }
      var pass := MaterialNodePass(full, base, len, offset, m, fuel);
      if pass.Done? {
        return pass.result;
      }
      offset, m := pass.offset, pass.state;
      fuel := fuel - 1;
    }
    r := Ok(m);
  }

  /** One pass of parseFBXMaterials's loop, at a node inside the data. */
  method MaterialWalkPass(data: seq<byte>, offset: nat, materials: map<string, Material>, fuel: nat)
    returns (p: Pass<map<string, Material>>)
    requires offset < |data| <= SizeLimit && KeyedByName(materials) && fuel > 0
    ensures p.Done? ==> p.result == MaterialWalk(data, offset, materials, fuel)
    ensures p.Next? ==> p.offset <= |data| && KeyedByName(p.state)
    ensures p.Next? ==> MaterialWalk(data, offset, materials, fuel) == MaterialWalk(data, p.offset, p.state, fuel - 1)
  {
    assert MaterialWalk(data, offset, materials, fuel) == WalkPass(data, offset, materials, fuel);
    var node := ReadNode(data, offset);
    if node.Stop? {
      return Done(Ok(materials));
    } else if node.Crash? {
      return Done(Err(Panic));
    }
    if node.name == "Material" {
      if node.body > node.end {
        return Done(Err(Panic));
      }
      var material := ParseMaterialNode(data, node.body, node.end - node.body);
      if material.Err? {
        return Done(Err(material.error));
      }
      MaterialWalkThen(data, offset, node.body, node.end, material.value, materials, fuel);
      p := Next(node.end, materials[material.value.name := material.value]);
    } else {
      MaterialWalkSkip(data, offset, node.name, node.body, node.end, materials, fuel);
      p := Next(node.end, materials);
    }
  }

  /** parseFBXMaterials, as the loop it is. */
  method ParseFbxMaterials(data: seq<byte>) returns (r: Result<map<string, Material>>)
    requires |data| <= SizeLimit
    ensures r == FbxMaterials(data)
  {
    var header := CheckHeader(data);
    if header.Err? {
      return Err(header.error);
    }
    var materials: map<string, Material> := map[];
    var offset: nat := 27;
    // The Go loop has no such bound; see NodeProps.
    var fuel: nat := |data| + 1;
    ghost var whole := FbxMaterials(data);
    while offset < |data|
      invariant offset <= |data|
      invariant KeyedByName(materials)
      invariant whole == MaterialWalk(data, offset, materials, fuel)
      decreases fuel
    {
      if fuel == 0 {
        return Err(Diverges);
      }
      var pass := MaterialWalkPass(data, offset, materials, fuel);
      if pass.Done? {
        return pass.result;
      }
      offset, materials := pass.offset, pass.state;
      fuel := fuel - 1;
    }
    r := Ok(materials);
  }

  // ---------------------------------------------------------------------
  // FBX Material nodes as a writer lays them out
  // ---------------------------------------------------------------------

  /** A property record: its name and its value bytes. */
  datatype Prop = Prop(name: seq<byte>, value: seq<byte>)

  /** A record that parseMaterialNode reads within its own bytes: the name
      fits its length byte and the value is as long as what its name reads. */
  predicate PropFits(p: Prop) {
    |p.name| < 256 && |p.value| < SizeLimit &&
    (IsColorName(Latin1(p.name)) ==> |p.value| >= 24) &&
    (Latin1(p.name) == "Shininess" ==> |p.value| >= 8)
  }

  predicate AllFit(ps: seq<Prop>) {
    forall i :: 0 <= i < |ps| ==> PropFits(ps[i])
  }

  /** A record as laid out: the value length, the name length, the name
      and the value. */
  function EncodeProp(p: Prop): (r: seq<byte>)
    requires PropFits(p)
    ensures |r| == 5 + |p.name| + |p.value|
  {
    Pow256Widths();
    LeBytes(|p.value|, 4) + [|p.name| as byte] + p.name + p.value
  }

  /** The bytes the records take. */
  function PropsSize(ps: seq<Prop>): nat {
    if ps == [] then 0 else 5 + |ps[0].name| + |ps[0].value| + PropsSize(ps[1..])
  }

  function EncodeProps(ps: seq<Prop>): (r: seq<byte>)
    requires AllFit(ps)
    ensures |r| == PropsSize(ps) >= 5 * |ps|
  {
    if ps == [] then [] else EncodeProp(ps[0]) + EncodeProps(ps[1..])
  }

  /** The records lie in `full` from `at`, one after the other. */
  predicate Laid(full: seq<byte>, at: nat, ps: seq<Prop>)
    requires AllFit(ps)
    decreases ps
  {
    ps == [] ||
    (at + |EncodeProp(ps[0])| <= |full| &&
     full[at..at + |EncodeProp(ps[0])|] == EncodeProp(ps[0]) &&
     Laid(full, at + |EncodeProp(ps[0])|, ps[1..]))
  }

  /** Records written out by EncodeProps lie one after the other. */
  lemma {:induction false} LaidOfEncoded(full: seq<byte>, at: nat, ps: seq<Prop>)
    requires AllFit(ps)
    requires at + PropsSize(ps) <= |full| && full[at..at + PropsSize(ps)] == EncodeProps(ps)
    ensures Laid(full, at, ps)
    decreases ps
  {
    if ps != [] {
      var e := EncodeProp(ps[0]);
      assert EncodeProps(ps) == e + EncodeProps(ps[1..]);
      SliceWithin(full, at, EncodeProps(ps), 0, |e|);
      SliceWithin(full, at, EncodeProps(ps), |e|, |EncodeProps(ps)|);
      LaidOfEncoded(full, at + |e|, ps[1..]);
    }
  }

  /** What a record sets, read from its own value bytes. */
  function ApplyProp(m: Material, p: Prop): Material
    requires PropFits(p)
  {
    var name := Latin1(p.name);
    if name == "Name" then m.(name := Latin1(p.value))
    else if IsColorName(name) then SetColor(m, name, Color(p.value, 0))
    else if name == "Shininess" then m.(shininess := LeU64(p.value, 0))
    else m
  }

  function ApplyProps(m: Material, ps: seq<Prop>): Material
    requires AllFit(ps)
    decreases |ps|
  {
    if ps == [] then m else ApplyProps(ApplyProp(m, ps[0]), ps[1..])
  }

  /** A slice of a copy of `v` is the slice of `v`. */
  lemma SliceWithin(full: seq<byte>, at: nat, v: seq<byte>, i: nat, j: nat)
    requires at + |v| <= |full| && full[at..at + |v|] == v && i <= j <= |v|
    ensures full[at + i..at + j] == v[i..j]
  {
    forall k | 0 <= k < j - i
      ensures full[at + i..at + j][k] == v[i..j][k]
    {
      assert v[i + k] == full[at..at + |v|][i + k];
    }
  }

  /** The two parts of a suffix that is a concatenation. */
  lemma SplitSuffix(data: seq<byte>, at: nat, a: seq<byte>, b: seq<byte>)
    requires at <= |data| && data[at..] == a + b
    ensures data[at..at + |a|] == a && data[at + |a|..] == b
  {
    assert data[at..at + |a|] == (a + b)[..|a|];
    assert data[at + |a|..] == (a + b)[|a|..];
  }

  /** A uint64 read inside a copy of `v` reads the same as in `v`. */
  lemma LeU64Within(full: seq<byte>, at: nat, v: seq<byte>, k: nat)
    requires at + |v| <= |full| && full[at..at + |v|] == v && k + 8 <= |v|
    ensures LeU64(full, at + k) == LeU64(v, k)
  {
    SliceWithin(full, at, v, k, k + 8);
  }

  /** A value read where it lies in the file sets what the record says. */
  lemma ReadPropertyOfEncoded(full: seq<byte>, base: nat, value: nat, p: Prop, m: Material)
    requires PropFits(p)
    requires base + value + |p.value| <= |full| <= SizeLimit
    requires full[base + value..base + value + |p.value|] == p.value
    ensures ReadProperty(full, base, Latin1(p.name), value, |p.value|, m) == Ok(ApplyProp(m, p))
  {
    var name := Latin1(p.name);
    var at := base + value;
    ReadPropertyMeaning(full, base, name, value, |p.value|, m);
    if IsColorName(name) {
      LeU64Within(full, at, p.value, 0);
      LeU64Within(full, at, p.value, 8);
      LeU64Within(full, at, p.value, 16);
    } else if name == "Shininess" {
      LeU64Within(full, at, p.value, 0);
    }
  }

  /** One pass of parseMaterialNode over a record whose property reads. */
  lemma NodePropsPass(full: seq<byte>, base: nat, len: nat, offset: nat, propLen: u32, name: string, value: nat,
                      next: nat, m: Material, m': Material, fuel: nat)
    requires base + len <= |full| <= SizeLimit && offset < len && fuel > 0
    requires ReadRecord(full, base, len, offset) == Record(propLen, name, value)
    requires next == (value + propLen) % U32Modulus
    requires ReadProperty(full, base, name, value, propLen, m) == Ok(m')
    ensures NodeProps(full, base, len, offset, m, fuel) == NodeProps(full, base, len, next, m', fuel - 1)
  {
    assert NodeProps(full, base, len, offset, m, fuel) == NodePass(full, base, len, offset, m, fuel);
  }

  /** The header of a laid-out record reads back. */
  lemma ReadRecordOfEncoded(full: seq<byte>, base: nat, len: nat, offset: nat, p: Prop)
    requires PropFits(p)
    requires base + len <= |full| && offset + 5 + |p.name| + |p.value| <= len
    requires full[base + offset..base + offset + 5 + |p.name| + |p.value|] == EncodeProp(p)
    ensures ReadRecord(full, base, len, offset) == Record(|p.value|, Latin1(p.name), offset + 5 + |p.name|)
  {
    Pow256Widths();
    var e := EncodeProp(p);
    var b := base + offset;
    assert e[..4] == LeBytes(|p.value|, 4);
    assert e[4] == |p.name| as byte;
    assert e[5..5 + |p.name|] == p.name;
    SliceWithin(full, b, e, 0, 4);
    LeValueOfBytes(|p.value|, 4);
    assert full[b + 4] == full[b..b + |e|][4];
    SliceWithin(full, b, e, 5, 5 + |p.name|);
  }

  /** One pass of parseMaterialNode over a laid-out record. */
  lemma NodePropsStep(full: seq<byte>, base: nat, len: nat, offset: nat, p: Prop, next: nat, m: Material, fuel: nat)
    requires PropFits(p) && fuel > 0
    requires base + len <= |full| <= SizeLimit
    requires next == offset + |EncodeProp(p)| <= len
    requires full[base + offset..base + offset + |EncodeProp(p)|] == EncodeProp(p)
    ensures NodeProps(full, base, len, offset, m, fuel) == NodeProps(full, base, len, next, ApplyProp(m, p), fuel - 1)
  {
    var e := EncodeProp(p);
    var value := offset + 5 + |p.name|;
    assert e[5 + |p.name|..|e|] == p.value;
    SliceWithin(full, base + offset, e, 5 + |p.name|, |e|);
    ReadRecordOfEncoded(full, base, len, offset, p);
    ReadPropertyOfEncoded(full, base, value, p, m);
    assert (value + |p.value|) % U32Modulus == next;
    NodePropsPass(full, base, len, offset, |p.value|, Latin1(p.name), value, next, m, ApplyProp(m, p), fuel);
  }

  /** What parseMaterialNode over laid-out records starts from: records
      that fit, lie from `offset` to the end of the node, and a pass for
      each. */
  predicate PropsReady(full: seq<byte>, base: nat, len: nat, offset: nat, ps: seq<Prop>, fuel: nat) {
    AllFit(ps) && fuel >= |ps| && base + len <= |full| <= SizeLimit &&
    offset + PropsSize(ps) == len && Laid(full, base + offset, ps)
  }

  /** parseMaterialNode at the end of the node keeps the material. */
  lemma NodePropsAtEnd(full: seq<byte>, base: nat, len: nat, m: Material, fuel: nat)
    requires base + len <= |full| <= SizeLimit && len < U32Modulus
    ensures NodeProps(full, base, len, len, m, fuel) == Ok(m)
  {
  }

  /** parseMaterialNode reads laid-out records back, in order. */
  lemma {:induction false} NodePropsOfEncoded(full: seq<byte>, base: nat, len: nat, offset: nat, ps: seq<Prop>, m: Material, fuel: nat)
    requires PropsReady(full, base, len, offset, ps, fuel)
    ensures NodeProps(full, base, len, offset, m, fuel) == Ok(ApplyProps(m, ps))
    decreases ps, 1
  {
    if ps == [] {
      NodePropsAtEnd(full, base, len, m, fuel);
    } else {
      NodePropsFirst(full, base, len, offset, ps, m, fuel);
    }
  }

  /** The first of several laid-out records is applied, then the rest. */
  lemma {:induction false} NodePropsFirst(full: seq<byte>, base: nat, len: nat, offset: nat, ps: seq<Prop>, m: Material, fuel: nat)
    requires PropsReady(full, base, len, offset, ps, fuel) && ps != []
    ensures NodeProps(full, base, len, offset, m, fuel) == Ok(ApplyProps(m, ps))
    decreases ps, 0
  {
    var next := offset + 5 + |ps[0].name| + |ps[0].value|;
    var m' := ApplyProp(m, ps[0]);
    NodePropsStep(full, base, len, offset, ps[0], next, m, fuel);
    NodePropsOfEncoded(full, base, len, next, ps[1..], m', fuel - 1);
  }

  /** A Material node whose body is laid-out records is the material
      those records set. */
  lemma MaterialNodeOfEncoded(full: seq<byte>, base: nat, ps: seq<Prop>)
    requires AllFit(ps)
    requires base + PropsSize(ps) <= |full| <= SizeLimit
    requires full[base..base + PropsSize(ps)] == EncodeProps(ps)
    ensures MaterialNode(full, base, PropsSize(ps)) == Ok(ApplyProps(Fresh(""), ps))
  {
    LaidOfEncoded(full, base, ps);
    NodePropsOfEncoded(full, base, PropsSize(ps), 0, ps, Fresh(""), PropsSize(ps) + 1);
  }

  /** "Material" in ASCII. */
  const MaterialTag: seq<byte> := [0x4D, 0x61, 0x74, 0x65, 0x72, 0x69, 0x61, 0x6C]

  lemma MaterialTagName()
    ensures Latin1(MaterialTag) == "Material"
  {
  }

  predicate AllNodesFit(nodes: seq<seq<Prop>>) {
    forall i :: 0 <= i < |nodes| ==> AllFit(nodes[i])
  }

  /** The bytes a sequence of Material nodes takes. */
  function NodesSize(nodes: seq<seq<Prop>>): (n: nat)
    requires AllNodesFit(nodes)
    ensures n >= 22 * |nodes|
  {
    if nodes == [] then 0 else 22 + PropsSize(nodes[0]) + NodesSize(nodes[1..])
  }

  /** Material nodes laid out one after the other from `offset`. */
  function EncodeMaterials(offset: nat, nodes: seq<seq<Prop>>): (r: seq<byte>)
    requires AllNodesFit(nodes) && offset + NodesSize(nodes) < U32Modulus
    ensures |r| == NodesSize(nodes)
    decreases nodes
  {
    if nodes == [] then []
    else
      var body := EncodeProps(nodes[0]);
      EncodeNode(offset, MaterialTag, body) + EncodeMaterials(offset + 22 + |body|, nodes[1..])
  }

  /** The materials the nodes set, in order. */
  function NodeMaterials(nodes: seq<seq<Prop>>): (ms: seq<Material>)
    requires AllNodesFit(nodes)
    ensures |ms| == |nodes|
  {
    if nodes == [] then [] else [ApplyProps(Fresh(""), nodes[0])] + NodeMaterials(nodes[1..])
  }

  /** A table after each material is stored under its name, in order. */
  function Store(found: map<string, Material>, ms: seq<Material>): (r: map<string, Material>)
    ensures KeyedByName(found) ==> KeyedByName(r)
    decreases ms
  {
    if ms == [] then found else Store(found[ms[0].name := ms[0]], ms[1..])
  }

  /** Of several materials stored under one name, the last is kept. */
  lemma {:induction false} StoreLast(found: map<string, Material>, ms: seq<Material>)
    requires ms != []
    ensures ms[|ms| - 1].name in Store(found, ms)
    ensures Store(found, ms)[ms[|ms| - 1].name] == ms[|ms| - 1]
    decreases ms
  {
    if |ms| > 1 {
      StoreLast(found[ms[0].name := ms[0]], ms[1..]);
      assert ms[1..][|ms[1..]| - 1] == ms[|ms| - 1];
    }
  }

  /** A name that none of the materials has keeps its entry. */
  lemma {:induction false} StoreOthers(found: map<string, Material>, ms: seq<Material>, name: string)
    requires forall i :: 0 <= i < |ms| ==> ms[i].name != name
    ensures name in Store(found, ms) <==> name in found
    ensures name in found ==> Store(found, ms)[name] == found[name]
    decreases ms
  {
    if ms != [] {
      StoreOthers(found[ms[0].name := ms[0]], ms[1..], name);
    }
  }

  /** The Material nodes lie in `data` from `offset`, one after the
      other, up to its end. */
  predicate NodesLaid(data: seq<byte>, offset: nat, nodes: seq<seq<Prop>>)
    requires AllNodesFit(nodes)
    decreases nodes
  {
    if nodes == [] then offset == |data|
    else
      var end := offset + 22 + PropsSize(nodes[0]);
      end <= |data| <= SizeLimit &&
      data[offset..end] == EncodeNode(offset, MaterialTag, EncodeProps(nodes[0])) &&
      NodesLaid(data, end, nodes[1..])
  }

  /** Nodes written out by EncodeMaterials lie one after the other. */
  lemma {:induction false} NodesLaidOfEncoded(data: seq<byte>, offset: nat, nodes: seq<seq<Prop>>)
    requires AllNodesFit(nodes)
    requires offset + NodesSize(nodes) == |data| <= SizeLimit
    requires data[offset..] == EncodeMaterials(offset, nodes)
    ensures NodesLaid(data, offset, nodes)
    decreases nodes
  {
    if nodes != [] {
      var node := EncodeNode(offset, MaterialTag, EncodeProps(nodes[0]));
      var end := offset + 22 + PropsSize(nodes[0]);
      SplitSuffix(data, offset, node, EncodeMaterials(end, nodes[1..]));
      NodesLaidOfEncoded(data, end, nodes[1..]);
    }
  }

  /** A laid-out Material node reads back as a Material node whose
      properties give the material they set. */
  lemma MaterialNodeAt(data: seq<byte>, offset: nat, end: nat, ps: seq<Prop>)
    requires AllFit(ps)
    requires end == offset + 22 + PropsSize(ps) <= |data| <= SizeLimit
    requires data[offset..end] == EncodeNode(offset, MaterialTag, EncodeProps(ps))
    ensures ReadNode(data, offset) == Node("Material", offset + 22, end)
    ensures MaterialNode(data, offset + 22, end - (offset + 22)) == Ok(ApplyProps(Fresh(""), ps))
  {
    var body := EncodeProps(ps);
    var node := EncodeNode(offset, MaterialTag, body);
    assert data[offset + 22..end] == body by {
      assert node[22..|node|] == body;
      SliceWithin(data, offset, node, 22, |node|);
    }
    ReadNodeOfEncoded(data, offset, MaterialTag, body);
    MaterialTagName();
    MaterialNodeOfEncoded(data, offset + 22, ps);
  }

  /** The walk's view of laid-out nodes: from `offset`, each reads back as
      a Material node whose properties give its material, up to the end
      of the data. */
  predicate NodesRead(data: seq<byte>, offset: nat, nodes: seq<seq<Prop>>)
    requires AllNodesFit(nodes)
    decreases nodes
  {
    if nodes == [] then offset == |data|
    else
      var end := offset + 22 + PropsSize(nodes[0]);
      offset < end <= |data| <= SizeLimit &&
      ReadNode(data, offset) == Node("Material", offset + 22, end) &&
      MaterialNode(data, offset + 22, end - (offset + 22)) == Ok(ApplyProps(Fresh(""), nodes[0])) &&
      NodesRead(data, end, nodes[1..])
  }

  /** A node that reads back in front of nodes that read back. */
  lemma NodesReadCons(data: seq<byte>, offset: nat, end: nat, nodes: seq<seq<Prop>>)
    requires AllNodesFit(nodes) && nodes != []
    requires end == offset + 22 + PropsSize(nodes[0]) && end <= |data| <= SizeLimit
    requires ReadNode(data, offset) == Node("Material", offset + 22, end)
    requires MaterialNode(data, offset + 22, end - (offset + 22)) == Ok(ApplyProps(Fresh(""), nodes[0]))
    requires NodesRead(data, end, nodes[1..])
    ensures NodesRead(data, offset, nodes)
  {
  }

  lemma {:induction false} NodesReadOfLaid(data: seq<byte>, offset: nat, nodes: seq<seq<Prop>>)
    requires AllNodesFit(nodes) && NodesLaid(data, offset, nodes)
    ensures NodesRead(data, offset, nodes)
    decreases nodes
  {
    if nodes != [] {
      var end := offset + 22 + PropsSize(nodes[0]);
      MaterialNodeAt(data, offset, end, nodes[0]);
      NodesReadOfLaid(data, end, nodes[1..]);
      NodesReadCons(data, offset, end, nodes);
    }
  }

  /** What the walk over laid-out nodes starts from: nodes that fit and
      read back, a table keyed by name and a pass for each node. */
  predicate WalkReady(data: seq<byte>, offset: nat, nodes: seq<seq<Prop>>, found: map<string, Material>, fuel: nat) {
    AllNodesFit(nodes) && KeyedByName(found) && fuel >= |nodes| &&
    offset <= |data| <= SizeLimit && NodesRead(data, offset, nodes)
  }

  /** The walk over the first of several laid-out nodes stores its
      material and leaves the walk over the others. */
  lemma MaterialWalkFirst(data: seq<byte>, offset: nat, nodes: seq<seq<Prop>>, found: map<string, Material>, fuel: nat)
    returns (end: nat, m: Material)
    requires WalkReady(data, offset, nodes, found, fuel) && nodes != []
    ensures WalkReady(data, end, nodes[1..], found[m.name := m], fuel - 1)
    ensures MaterialWalk(data, offset, found, fuel) == MaterialWalk(data, end, found[m.name := m], fuel - 1)
    ensures Store(found, NodeMaterials(nodes)) == Store(found[m.name := m], NodeMaterials(nodes[1..]))
  {
    end := offset + 22 + PropsSize(nodes[0]);
    m := ApplyProps(Fresh(""), nodes[0]);
    MaterialWalkThen(data, offset, offset + 22, end, m, found, fuel);
  }

  /** The walk over laid-out Material nodes stores each node's material,
      in file order. */
  lemma {:induction false} MaterialWalkOfEncoded(data: seq<byte>, offset: nat, nodes: seq<seq<Prop>>, found: map<string, Material>, fuel: nat)
    requires WalkReady(data, offset, nodes, found, fuel)
    ensures MaterialWalk(data, offset, found, fuel) == Ok(Store(found, NodeMaterials(nodes)))
    decreases nodes
  {
    if nodes == [] {
      assert MaterialWalk(data, offset, found, fuel) == Ok(found);
    } else {
      var end, m := MaterialWalkFirst(data, offset, nodes, found, fuel);
      MaterialWalkOfEncoded(data, end, nodes[1..], found[m.name := m], fuel - 1);
    }
  }

  /** One pass of the walk over a Material node that parses. */
  lemma MaterialWalkThen(data: seq<byte>, offset: nat, body: nat, end: nat, m: Material, found: map<string, Material>, fuel: nat)
    requires offset < |data| <= SizeLimit && KeyedByName(found) && fuel > 0
    requires ReadNode(data, offset) == Node("Material", body, end) && body <= end
    requires MaterialNode(data, body, end - body) == Ok(m)
    ensures MaterialWalk(data, offset, found, fuel) == MaterialWalk(data, end, found[m.name := m], fuel - 1)
  {
    assert MaterialWalk(data, offset, found, fuel) == WalkPass(data, offset, found, fuel);
  }

  /** One pass of the walk over a node that is not a Material. */
  lemma MaterialWalkSkip(data: seq<byte>, offset: nat, name: string, body: nat, end: nat, found: map<string, Material>, fuel: nat)
    requires offset < |data| <= SizeLimit && KeyedByName(found) && fuel > 0
    requires ReadNode(data, offset) == Node(name, body, end) && name != "Material"
    ensures MaterialWalk(data, offset, found, fuel) == MaterialWalk(data, end, found, fuel - 1)
  {
    assert MaterialWalk(data, offset, found, fuel) == WalkPass(data, offset, found, fuel);
  }

  /** parseFBXMaterials reads back Material nodes written after a header
      of a supported version: each node's material, the later of two with
      one name kept. */
  lemma FbxMaterialsOfEncoded(version: u32, nodes: seq<seq<Prop>>)
    requires version >= MinVersion && AllNodesFit(nodes)
    requires 27 + NodesSize(nodes) <= SizeLimit
    ensures FbxMaterials(Header(version) + EncodeMaterials(27, nodes)) == Ok(Store(map[], NodeMaterials(nodes)))
  {
    var data := Header(version) + EncodeMaterials(27, nodes);
    CheckHeaderOfHeader(version, EncodeMaterials(27, nodes));
    NodesReadOfFile(version, nodes);
    FbxMaterialsOfRead(data, nodes);
  }

  /** A file whose header checks and whose Material nodes read back from
      byte 27 parses to their materials. */
  lemma FbxMaterialsOfRead(data: seq<byte>, nodes: seq<seq<Prop>>)
    requires AllNodesFit(nodes) && 27 + NodesSize(nodes) == |data| <= SizeLimit
    requires CheckHeader(data).Ok? && NodesRead(data, 27, nodes)
    ensures FbxMaterials(data) == Ok(Store(map[], NodeMaterials(nodes)))
  {
    MaterialWalkOfEncoded(data, 27, nodes, map[], |data| + 1);
  }

  /** Material nodes written after a header read back as nodes from
      byte 27. */
  lemma NodesReadOfFile(version: u32, nodes: seq<seq<Prop>>)
    requires AllNodesFit(nodes) && 27 + NodesSize(nodes) <= SizeLimit
    ensures NodesRead(Header(version) + EncodeMaterials(27, nodes), 27, nodes)
  {
    var data := Header(version) + EncodeMaterials(27, nodes);
    assert data[27..] == EncodeMaterials(27, nodes);
    NodesLaidOfEncoded(data, 27, nodes);
    NodesReadOfLaid(data, 27, nodes);
  }

  /** Moving one entry of `rest` into `done` keeps their union, and
      storing it in a table that holds `done` over `table` stores `done`
      with it. */
  lemma MergeStep(table: map<string, Material>, materials: map<string, Material>,
                  done: map<string, Material>, rest: map<string, Material>, name: string)
    requires name in rest && rest.Keys !! done.Keys
    requires materials == table + done
    requires KeyedByName(materials) && KeyedByName(rest)
    ensures done + rest == done[name := rest[name]] + (rest - {name})
    ensures materials[name := rest[name]] == table + done[name := rest[name]]
    ensures (rest - {name}).Keys !! done[name := rest[name]].Keys
    ensures (rest - {name}).Keys < rest.Keys
    ensures KeyedByName(materials[name := rest[name]]) && KeyedByName(rest - {name})
  {
    var done' := done[name := rest[name]];
    var rest' := rest - {name};
    assert (done + rest).Keys == (done' + rest').Keys;
    assert (materials[name := rest[name]]).Keys == (table + done').Keys;
  }

  // ---------------------------------------------------------------------
  // The importer
  // ---------------------------------------------------------------------

  class MaterialImporter {
    var materials: map<string, Material>

    /** NewMaterialImporter */
    constructor ()
      ensures materials == map[]
    {
      materials := map[];
    }

    /** GetMaterial: the material stored under the name, if any. */
    function GetMaterial(name: string): (r: Option<Material>)
      reads this
      ensures r.Some? <==> name in materials
      ensures r.Some? ==> r.value == materials[name]
    {
      if name in materials then Some(materials[name]) else None
    }

    /** GetMaterials */
    function GetMaterials(): map<string, Material>
      reads this
    {
      materials
    }

    /** One MTL line: the current material is the name of the most recent
        newmtl line. */
    method ImportMtlLine(fops: FloatOps, line: string, current: Option<string>) returns (current': Option<string>, o: Outcome)
      requires Tracks(MtlState(materials, current))
      modifies this
      ensures o.Pass? <==> MtlLine(fops, line, MtlState(old(materials), current)).Ok?
      ensures o.Pass? ==> MtlLine(fops, line, MtlState(old(materials), current)) == Ok(MtlState(materials, current'))
      ensures o.Fail? ==> o.error == MtlLine(fops, line, MtlState(old(materials), current)).error
      ensures o.Fail? ==> materials == old(materials)
    {
      var trimmed := TrimSpace(line);
      if trimmed == "" || trimmed[0] == '#' {
        return current, Pass;
      }
      current', o := ImportMtlFields(fops, Fields(trimmed), current);
    }

    /** The fields of a line that is not blank or a comment. */
    method ImportMtlFields(fops: FloatOps, fields: seq<string>, current: Option<string>) returns (current': Option<string>, o: Outcome)
      requires Tracks(MtlState(materials, current))
      modifies this
      ensures o.Pass? <==> Perform(MtlState(old(materials), current), FieldsCommand(fops, fields, current.Some?)).Ok?
      ensures o.Pass? ==>
        Perform(MtlState(old(materials), current), FieldsCommand(fops, fields, current.Some?)) == Ok(MtlState(materials, current'))
      ensures o.Fail? ==> o.error == Perform(MtlState(old(materials), current), FieldsCommand(fops, fields, current.Some?)).error
      ensures o.Fail? ==> materials == old(materials)
    {
      current' := current;
      o := Pass;
      if |fields| < 2 {
        return;
      }
      if fields[0] == "newmtl" {
        var name := JoinSpace(fields[1..]);
        materials := materials[name := Fresh(name)];
        current' := Some(name);
      } else if IsPropertyKeyword(fields[0]) {
        if current.None? {
          return current, Fail(SpecifiedBeforeMaterial(Subject(fields[0])));
        }
        var property := PropertyOf(fops, fields);
        if property.Err? {
          return current, Fail(property.error);
        }
        var name := current.value;
        materials := materials[name := Apply(materials[name], property.value)];
      }
    }

    /** ImportFromFBX: the materials of the file are copied into the table,
        each replacing the one of its name; a file that fails to parse
        changes nothing. */
    method ImportFromFBX(data: seq<byte>) returns (o: Outcome)
      requires |data| <= SizeLimit && KeyedByName(materials)
      modifies this
      ensures FbxMaterials(data).Ok? ==> o == Pass && materials == old(materials) + FbxMaterials(data).value
      ensures FbxMaterials(data).Err? ==> o == Fail(FbxMaterials(data).error) && materials == old(materials)
      ensures KeyedByName(materials)
    {
      var found := ParseFbxMaterials(data);
      if found.Err? {
        return Fail(found.error);
      }
      Merge(found.value);
      o := Pass;
    }

    /** The loop of ImportFromFBX that stores each parsed material under
        its name, replacing what was there. */
    method Merge(found: map<string, Material>)
      requires KeyedByName(materials) && KeyedByName(found)
      modifies this
      ensures materials == old(materials) + found
      ensures KeyedByName(materials)
    {
      var rest := found;
      ghost var done: map<string, Material> := map[];
      while rest != map[]
        invariant rest.Keys !! done.Keys
        invariant found == done + rest
        invariant materials == old(materials) + done
        invariant KeyedByName(materials) && KeyedByName(rest)
        decreases rest.Keys
      {
        var name :| name in rest;
        MergeStep(old(materials), materials, done, rest, name);
        materials := materials[name := rest[name]];
        done := done[name := rest[name]];
        rest := rest - {name};
      }
      assert found == done;
    }

    /** ImportFromOBJ (MTL): the lines in order, with no current material
        at the start; a rejected line ends the import and keeps what the
        lines before it changed. */
    method ImportFromOBJ(fops: FloatOps, text: string) returns (o: Outcome)
      requires KeyedByName(materials)
      modifies this
      ensures (materials, o) == MtlImport(fops, text, old(materials))
      ensures old(materials).Keys <= materials.Keys && KeyedByName(materials)
    {
      var lines := ScanLines(text);
      var current: Option<string> := None;
      MtlFromKeeps(fops, lines, 0, MtlState(materials, None));
      ghost var whole := MtlImport(fops, text, materials);
      for i := 0 to |lines|
        invariant Tracks(MtlState(materials, current))
        invariant whole == MtlFrom(fops, lines, i, MtlState(materials, current))
      {
        current, o := ImportMtlLine(fops, lines[i], current);
        if o.Fail? {
          return;
        }
      }
      o := Pass;
    }
  }
}
