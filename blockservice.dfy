/** The block service of pkg/blocks/service.go: a model file is imported
    into vertices, and every vertex is stored in the block store as a
    64-byte block of its eight float64 bit patterns. */
module BlockService {
  import opened Common
  import opened Text
  import opened Fbx
  import opened Vertices
  import opened BlockStore

  // ---------------------------------------------------------------------
  // encodeVertex
  // ---------------------------------------------------------------------

  /** The eight float64 components of a vertex, in the order encodeVertex
      writes them: position, normal, texture coordinates. */
  function Components(v: Vertex): (r: seq<Float>)
    ensures |r| == 8
  {
    [v.position.x, v.position.y, v.position.z,
     v.normal.x, v.normal.y, v.normal.z,
     v.texCoords.u, v.texCoords.v]
  }

  /** encodeVertex */
  function EncodeVertex(v: Vertex): (r: seq<byte>)
    ensures |r| == 64
  {
    EncodeFloats(Components(v))
  }

  /** Bytes [8k, 8k + 8) of an encoded vertex are the little-endian bit
      pattern of its k-th component. */
  lemma EncodeVertexLayout(v: Vertex, k: nat)
    requires k < 8
    ensures EncodeVertex(v)[8 * k..8 * k + 8] == PutU64(Components(v)[k])
    ensures LeU64(EncodeVertex(v), 8 * k) == Components(v)[k]
  {
    EncodeFloatsAt(Components(v), k);
    PutU64RoundTrip(Components(v)[k]);
    assert PutU64(Components(v)[k])[0..8] == PutU64(Components(v)[k]);
  }

  /** Reading a 64-byte block back as a vertex, component by component. */
  function DecodeVertex(data: seq<byte>): Vertex
    requires |data| == 64
  {
    Vertex(Vec3(LeU64(data, 0), LeU64(data, 8), LeU64(data, 16)),
           Vec3(LeU64(data, 24), LeU64(data, 32), LeU64(data, 40)),
           Vec2(LeU64(data, 48), LeU64(data, 56)))
  }

  /** A block holds all of its vertex: decoding it gives the vertex back. */
  lemma DecodeEncodeVertex(v: Vertex)
    ensures DecodeVertex(EncodeVertex(v)) == v
  {
    EncodeVertexLayout(v, 0);
    EncodeVertexLayout(v, 1);
    EncodeVertexLayout(v, 2);
    EncodeVertexLayout(v, 3);
    EncodeVertexLayout(v, 4);
    EncodeVertexLayout(v, 5);
    EncodeVertexLayout(v, 6);
    EncodeVertexLayout(v, 7);
  }

  /** encodeVertex loses nothing: two vertices have the same block
      contents exactly when they are equal bit for bit. */
  lemma EncodeVertexInjective(v: Vertex, w: Vertex)
    ensures EncodeVertex(v) == EncodeVertex(w) <==> v == w
  {
    if EncodeVertex(v) == EncodeVertex(w) {
      DecodeEncodeVertex(v);
      DecodeEncodeVertex(w);
    }
  }

  /** Two vertices share a block exactly when they are equal bit for bit or
      SHA-256 collides on their two (then different) encodings. */
  lemma SameBlockSameVertex(sha: Hasher, v: Vertex, w: Vertex)
    ensures BlockHash(sha, EncodeVertex(v)) == BlockHash(sha, EncodeVertex(w)) <==>
      v == w || (v != w && sha(EncodeVertex(v)) == sha(EncodeVertex(w)))
  {
    BlockHashEqual(sha, EncodeVertex(v), EncodeVertex(w));
    EncodeVertexInjective(v, w);
  }

  // ---------------------------------------------------------------------
  // ProcessModelData
  // ---------------------------------------------------------------------

  /** The vertices an importer appends, or the error that ends it. */
  function Imported(b: Built): Result<seq<Vertex>> {
    if b.1.Fail? then Err(b.1.error) else Ok(b.0)
  }

  /** The vertices a fresh importer gives for the format: OBJ text is read
      as Latin-1 characters, FBX as bytes; any other format is refused. */
  function ImportVertices(fops: FloatOps, format: string, data: seq<byte>): (r: Result<seq<Vertex>>)
    requires format == "fbx" ==> |data| <= SizeLimit
    ensures format != "obj" && format != "fbx" ==> r == Err(UnsupportedFormat)
    ensures format == "obj" ==> r == Imported(ObjImport(fops, Latin1(data)))
    ensures format == "fbx" ==> r == Imported(FbxImport(data))
  {
    if format == "obj" then Imported(ObjImport(fops, Latin1(data)))
    else if format == "fbx" then Imported(FbxImport(data))
    else Err(UnsupportedFormat)
  }

  /** The blocks and the hashes after the vertices from the i-th on are
      stored, each with StoreBlock, stopping at the first write that
      fails. `writeFails(i)` says whether writing the i-th vertex's block
      fails; a block already present is not written. */
  function StoreFrom(sha: Hasher, blocks: map<string, seq<byte>>, vs: seq<Vertex>, writeFails: nat -> bool, i: nat)
    : (map<string, seq<byte>>, Result<seq<string>>)
    requires i <= |vs|
    decreases |vs| - i
  {
    if i == |vs| then (blocks, Ok([]))
    else
      var data := EncodeVertex(vs[i]);
      var h := BlockHash(sha, data);
      if h !in blocks && writeFails(i) then (blocks, Err(IoFailure))
      else
        var rest := StoreFrom(sha, if h in blocks then blocks else blocks[h := data], vs, writeFails, i + 1);
        (rest.0, PrependHash(h, rest.1))
  }

  function PrependHash(h: string, r: Result<seq<string>>): Result<seq<string>> {
    if r.Ok? then Ok([h] + r.value) else r
  }

  /** The hashes of the vertex blocks from the i-th on. */
  function VertexHashes(sha: Hasher, vs: seq<Vertex>, i: nat): set<string>
    requires i <= |vs|
  {
    set k | i <= k < |vs| :: BlockHash(sha, EncodeVertex(vs[k]))
  }

  /** Storing vertex blocks never removes or rewrites a block, and every
      block it adds is stored under its own hash. */
  lemma {:induction false} StoreFromKeeps(sha: Hasher, blocks: map<string, seq<byte>>, vs: seq<Vertex>,
                                          writeFails: nat -> bool, i: nat)
    requires i <= |vs|
    ensures var r := StoreFrom(sha, blocks, vs, writeFails, i);
      forall h :: h in blocks ==> h in r.0 && r.0[h] == blocks[h]
    ensures var r := StoreFrom(sha, blocks, vs, writeFails, i);
      forall h :: h in r.0 && h !in blocks ==> h == BlockHash(sha, r.0[h])
    decreases |vs| - i
  {
    if i < |vs| {
      var data := EncodeVertex(vs[i]);
      var h := BlockHash(sha, data);
      if !(h !in blocks && writeFails(i)) {
        StoreFromKeeps(sha, if h in blocks then blocks else blocks[h := data], vs, writeFails, i + 1);
      }
    }
  }

  /** On success there is one hash per vertex, in vertex order. */
  lemma {:induction false} StoreFromHashes(sha: Hasher, blocks: map<string, seq<byte>>, vs: seq<Vertex>,
                                           writeFails: nat -> bool, i: nat)
    requires i <= |vs|
    requires StoreFrom(sha, blocks, vs, writeFails, i).1.Ok?
    ensures var r := StoreFrom(sha, blocks, vs, writeFails, i);
      |r.1.value| == |vs| - i
    ensures var r := StoreFrom(sha, blocks, vs, writeFails, i);
      forall k :: 0 <= k < |r.1.value| ==> r.1.value[k] == BlockHash(sha, EncodeVertex(vs[i + k]))
    decreases |vs| - i
  {
    if i < |vs| {
      var data := EncodeVertex(vs[i]);
      var h := BlockHash(sha, data);
      var blocks' := if h in blocks then blocks else blocks[h := data];
      StoreFromHashes(sha, blocks', vs, writeFails, i + 1);
      var r := StoreFrom(sha, blocks, vs, writeFails, i);
      var rest := StoreFrom(sha, blocks', vs, writeFails, i + 1);
      assert r.1.value == [h] + rest.1.value;
      forall k | 0 <= k < |r.1.value|
        ensures r.1.value[k] == BlockHash(sha, EncodeVertex(vs[i + k]))
      {
        if k > 0 {
          assert r.1.value[k] == rest.1.value[k - 1];
        }
      }
    }
  }

  /** On success the blocks added are exactly those of the vertices, so
      every hash returned names a stored block. */
  lemma {:induction false} StoreFromKeys(sha: Hasher, blocks: map<string, seq<byte>>, vs: seq<Vertex>,
                                         writeFails: nat -> bool, i: nat)
    requires i <= |vs|
    requires StoreFrom(sha, blocks, vs, writeFails, i).1.Ok?
    ensures StoreFrom(sha, blocks, vs, writeFails, i).0.Keys == blocks.Keys + VertexHashes(sha, vs, i)
    decreases |vs| - i
  {
    if i < |vs| {
      var data := EncodeVertex(vs[i]);
      var h := BlockHash(sha, data);
      StoreFromKeys(sha, if h in blocks then blocks else blocks[h := data], vs, writeFails, i + 1);
      assert VertexHashes(sha, vs, i) == {h} + VertexHashes(sha, vs, i + 1);
    }
  }

  /** Storing fails only with a write error, and only when some write
      fails; when no write fails it succeeds. */
  lemma {:induction false} StoreFromFails(sha: Hasher, blocks: map<string, seq<byte>>, vs: seq<Vertex>,
                                          writeFails: nat -> bool, i: nat)
    requires i <= |vs|
    ensures var r := StoreFrom(sha, blocks, vs, writeFails, i);
      r.1.Err? ==> r.1.error == IoFailure && exists k :: i <= k < |vs| && writeFails(k)
    ensures (forall k :: i <= k < |vs| ==> !writeFails(k)) ==> StoreFrom(sha, blocks, vs, writeFails, i).1.Ok?
    decreases |vs| - i
  {
    if i < |vs| {
      var data := EncodeVertex(vs[i]);
      var h := BlockHash(sha, data);
      if !(h !in blocks && writeFails(i)) {
        StoreFromFails(sha, if h in blocks then blocks else blocks[h := data], vs, writeFails, i + 1);
      }
    }
  }

  /** A vertex repeated in a model is stored once: both occurrences get
      the same hash. */
  lemma SharedVertexSameHash(sha: Hasher, blocks: map<string, seq<byte>>, vs: seq<Vertex>,
                             writeFails: nat -> bool, j: nat, k: nat)
    requires j < |vs| && k < |vs| && vs[j] == vs[k]
    requires StoreFrom(sha, blocks, vs, writeFails, 0).1.Ok?
    ensures var hashes := StoreFrom(sha, blocks, vs, writeFails, 0).1.value;
      j < |hashes| && k < |hashes| && hashes[j] == hashes[k]
  {
    StoreFromHashes(sha, blocks, vs, writeFails, 0);
  }

  /** ProcessModelData as a whole: the blocks after the call and its
      result. Nothing is stored when the import fails. */
  function ProcessModel(sha: Hasher, blocks: map<string, seq<byte>>, fops: FloatOps, format: string,
                        data: seq<byte>, writeFails: nat -> bool): (map<string, seq<byte>>, Result<seq<string>>)
    requires format == "fbx" ==> |data| <= SizeLimit
  {
    match ImportVertices(fops, format, data)
    case Err(e) => (blocks, Err(e))
    case Ok(vs) => StoreFrom(sha, blocks, vs, writeFails, 0)
  }

  /** The hashes stored so far in front of what the rest gives. */
  function Resume(done: seq<string>, r: (map<string, seq<byte>>, Result<seq<string>>))
    : (map<string, seq<byte>>, Result<seq<string>>)
  {
    (r.0, if r.1.Ok? then Ok(done + r.1.value) else r.1)
  }

  /** One pass of ProcessModelData's loop: the i-th vertex's block is
      stored, and the rest follow with its hash recorded; or its write
      fails and nothing more is stored. */
  lemma ResumeStep(sha: Hasher, blocks: map<string, seq<byte>>, vs: seq<Vertex>, writeFails: nat -> bool,
                   i: nat, done: seq<string>)
    requires i < |vs|
    ensures var h := BlockHash(sha, EncodeVertex(vs[i]));
      h !in blocks && writeFails(i) ==> Resume(done, StoreFrom(sha, blocks, vs, writeFails, i)) == (blocks, Err(IoFailure))
    ensures var h := BlockHash(sha, EncodeVertex(vs[i]));
      var blocks' := if h in blocks then blocks else blocks[h := EncodeVertex(vs[i])];
      !(h !in blocks && writeFails(i)) ==>
        Resume(done, StoreFrom(sha, blocks, vs, writeFails, i)) == Resume(done + [h], StoreFrom(sha, blocks', vs, writeFails, i + 1))
  {
    var h := BlockHash(sha, EncodeVertex(vs[i]));
    var blocks' := if h in blocks then blocks else blocks[h := EncodeVertex(vs[i])];
    var rest := StoreFrom(sha, blocks', vs, writeFails, i + 1).1;
    if rest.Ok? {
      assert done + ([h] + rest.value) == (done + [h]) + rest.value;
    }
  }

  // ---------------------------------------------------------------------
  // GetModelBlocks
  // ---------------------------------------------------------------------

  /** The blocks of the hashes, in order, or "block not found" for the
      first hash with no block. */
  function FetchBlocks(blocks: map<string, seq<byte>>, hashes: seq<string>): (r: Result<seq<Block>>)
    ensures r.Ok? <==> forall k :: 0 <= k < |hashes| ==> hashes[k] in blocks
    ensures r.Ok? ==> |r.value| == |hashes|
    ensures r.Ok? ==> forall k :: 0 <= k < |hashes| ==> r.value[k] == Block(hashes[k], |blocks[hashes[k]]|, blocks[hashes[k]])
    ensures r.Err? ==> r.error == BlockNotFound
  {
    if hashes == [] then Ok([])
    else if hashes[0] !in blocks then Err(BlockNotFound)
    else
      match FetchBlocks(blocks, hashes[1..])
      case Err(e) => Err(e)
      case Ok(rest) =>
        var b := Block(hashes[0], |blocks[hashes[0]]|, blocks[hashes[0]]);
        assert forall k :: 1 <= k < |hashes| ==> hashes[k] == hashes[1..][k - 1];
        Ok([b] + rest)
  }

  /** The Service of pkg/blocks/service.go over its store. */
  class Service {
    const store: Store

    /** NewService */
    constructor (store: Store)
      ensures this.store == store
    {
      this.store := store;
    }

    /** ProcessModelData: the model imported by a fresh importer, then one
        block per vertex, in order. An unsupported format or an import
        error stores nothing; a failed write stops the loop with the
        blocks written before it kept. */
    method ProcessModelData(fops: FloatOps, format: string, data: seq<byte>, writeFails: nat -> bool)
      returns (r: Result<seq<string>>)
      requires store.Valid()
      requires format == "fbx" ==> |data| <= SizeLimit
      modifies store
      ensures store.Valid()
      ensures (store.blocks, r) == ProcessModel(store.sha, old(store.blocks), fops, format, data, writeFails)
    {
      var importer := new VertexImporter();
      var imported: Outcome;
      if format == "obj" {
        imported := importer.ImportFromOBJ(fops, Latin1(data));
      } else if format == "fbx" {
        imported := importer.ImportFromFBX(data);
      } else {
        return Err(UnsupportedFormat);
      }
      if imported.Fail? {
        return Err(imported.error);
      }
      var vertices := importer.GetVertices();
      assert vertices == ImportVertices(fops, format, data).value;
      r := StoreVertices(vertices, writeFails);
    }

    /** The loop of ProcessModelData: one StoreBlock per vertex, in order,
        returning at the first failed write. */
    method StoreVertices(vertices: seq<Vertex>, writeFails: nat -> bool) returns (r: Result<seq<string>>)
      requires store.Valid()
      modifies store
      ensures store.Valid()
      ensures (store.blocks, r) == StoreFrom(store.sha, old(store.blocks), vertices, writeFails, 0)
    {
      var hashes: seq<string> := [];
      ghost var whole := StoreFrom(store.sha, store.blocks, vertices, writeFails, 0);
      if whole.1.Ok? {
        assert [] + whole.1.value == whole.1.value;
      }
      for i := 0 to |vertices|
        invariant store.Valid()
        invariant whole == Resume(hashes, StoreFrom(store.sha, store.blocks, vertices, writeFails, i))
      {
        var block := EncodeVertex(vertices[i]);
        ResumeStep(store.sha, store.blocks, vertices, writeFails, i, hashes);
        var hash, stored := store.StoreBlock(block, writeFails(i));
        if stored.Fail? {
          return Err(stored.error);
        }
        hashes := hashes + [hash];
      }
      r := Ok(hashes);
      assert hashes + [] == hashes;
    }

    /** GetModelBlocks: the blocks of the hashes in order; the first
        missing one fails the whole call. */
    method GetModelBlocks(hashes: seq<string>) returns (r: Result<seq<Block>>)
      ensures r == FetchBlocks(store.blocks, hashes)
    {
      var blocks: seq<Block> := [];
      for i := 0 to |hashes|
        invariant forall k :: 0 <= k < i ==> hashes[k] in store.blocks
        invariant |blocks| == i
        invariant forall k :: 0 <= k < i ==> blocks[k] == Block(hashes[k], |store.blocks[hashes[k]]|, store.blocks[hashes[k]])
      {
        var block := store.GetBlock(hashes[i]);
        if block.Err? {
          assert hashes[i] !in store.blocks;
          return Err(block.error);
        }
        blocks := blocks + [block.value];
      }
      r := Ok(blocks);
      assert blocks == FetchBlocks(store.blocks, hashes).value;
    }

    /** DeleteBlock: the store's DeleteBlock. */
    method DeleteBlock(hash: string, removeFails: bool) returns (o: Outcome)
      requires store.Valid()
      modifies store
      ensures store.Valid()
      ensures hash !in old(store.blocks) ==> o == Fail(NoSuchFile(hash)) && store.blocks == old(store.blocks)
      ensures hash in old(store.blocks) && removeFails ==> o == Fail(IoFailure) && store.blocks == old(store.blocks)
      ensures hash in old(store.blocks) && !removeFails ==> o == Pass && store.blocks == old(store.blocks) - {hash}
    {
      o := store.DeleteBlock(hash, removeFails);
    }
  }
}
