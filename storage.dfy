/** The chunked model store of pkg/core/storage.go: an in-memory catalog of
    model metadata over a directory tree that holds each model's chunk files
    and each object's metadata file.

    The file system is modelled as maps: `dirs` maps a model ID to the files
    chunk_0, chunk_1, ... of its directory (keyed by chunk index), and
    `objects` maps an object ID to the record in its metadata.json. An
    io.Reader is modelled by the script of results its Read calls return; an
    io.Writer by the bytes it accepts. Faults of the operating system, and a
    cancelled context, are parameters. generateUUID is the injective oracle
    `uuid` applied to a counter of identifiers issued so far. */
module ModelStorage {
  import opened Common
  import opened ModelRecords

  /** 5 MiB: the size of the read buffer and so the largest chunk. */
  const ChunkSize: nat := 1024 * 1024 * 5

  /** One turn of the read loop: the context was found cancelled, or
      reader.Read(buffer) returned bytes with a nil error, bytes with
      io.EOF, or another error. */
  datatype ReadStep =
    | Cancel
    | Data(bytes: seq<byte>)
    | Eof(bytes: seq<byte>)
    | ReadFailure

  /** An io.Reader that honours a ChunkSize buffer and eventually stops
      delivering data (io.EOF, an error, or a cancelled context). */
  predicate WellFormedReader(script: seq<ReadStep>) {
    && |script| > 0
    && !script[|script| - 1].Data?
    && forall i :: 0 <= i < |script| ==> script[i].Data? ==> |script[i].bytes| <= ChunkSize
  }

  /** The number of leading turns that deliver data without ending the read. */
  function DataSteps(script: seq<ReadStep>): (k: nat)
    ensures k <= |script|
    ensures forall i :: 0 <= i < k ==> script[i].Data?
    ensures k < |script| ==> !script[k].Data?
  {
    if script == [] || !script[0].Data? then 0 else 1 + DataSteps(script[1..])
  }

  function Payloads(script: seq<ReadStep>, k: nat): (r: seq<seq<byte>>)
    requires k <= |script|
    requires forall i :: 0 <= i < k ==> script[i].Data?
    ensures |r| == k
  {
    seq(k, i requires 0 <= i < k => script[i].bytes)
  }

  /** The bytes the store takes from the reader: everything Read returned
      with a nil error, in order. */
  function Consumed(script: seq<ReadStep>): seq<byte> {
    Flatten(Payloads(script, DataSteps(script)))
  }

  /** The reader ends with io.EOF rather than an error or a cancellation. */
  predicate EndsWithEof(script: seq<ReadStep>)
    requires WellFormedReader(script)
  {
    script[DataSteps(script)].Eof?
  }

  datatype SplitResult = Split(chunks: seq<seq<byte>>) | SplitError(error: Error)

  function Prepend(written: seq<seq<byte>>, r: SplitResult): SplitResult {
    match r
    case Split(rest) => Split(written + rest)
    case SplitError(e) => SplitError(e)
  }

  lemma PrependAppend(written: seq<seq<byte>>, d: seq<byte>, r: SplitResult)
    ensures Prepend(written, Prepend([d], r)) == Prepend(written + [d], r)
  {
    if r.Split? {
      assert written + ([d] + r.chunks) == (written + [d]) + r.chunks;
    }
  }

  /** What splitAndStoreChunks does from read turn i on (turn i writes
      chunk_i): it stops at a cancellation, a read error or a failed write
      with that error, and at io.EOF with the chunks written so far. */
  function SplitFrom(script: seq<ReadStep>, writeFails: nat -> bool, i: nat): SplitResult
    requires WellFormedReader(script) && i < |script|
    decreases |script| - i
  {
    match script[i]
    case Cancel => SplitError(Cancelled)
    case ReadFailure => SplitError(IoFailure)
    case Eof(_) => Split([])
    case Data(d) =>
      if writeFails(i) then SplitError(IoFailure)
      else Prepend([d], SplitFrom(script, writeFails, i + 1))
  }

  function SplitChunks(script: seq<ReadStep>, writeFails: nat -> bool): SplitResult
    requires WellFormedReader(script)
  {
    SplitFrom(script, writeFails, 0)
  }

  lemma {:induction false} SplitFromMeaning(script: seq<ReadStep>, writeFails: nat -> bool, i: nat)
    requires WellFormedReader(script) && i <= DataSteps(script)
    ensures var k := DataSteps(script);
      var r := SplitFrom(script, writeFails, i);
      && (r.Split? <==> script[k].Eof? && forall j :: i <= j < k ==> !writeFails(j))
      && (r.Split? ==> r.chunks == Payloads(script, k)[i..])
      && (r == SplitError(Cancelled) <==> script[k].Cancel? && forall j :: i <= j < k ==> !writeFails(j))
    decreases DataSteps(script) - i
  {
    var k := DataSteps(script);
    if i < k {
      SplitFromMeaning(script, writeFails, i + 1);
      assert Payloads(script, k)[i..] == [script[i].bytes] + Payloads(script, k)[i + 1..];
    }
  }

  /** The loop finishes normally exactly when the reader reaches io.EOF and
      no chunk write failed; the chunks are then what the reader delivered,
      in order, so they concatenate to the consumed bytes, none exceeds
      ChunkSize, and the reported size is their total length. The loop
      reports context.Canceled exactly when the context is found cancelled
      before any write failed. */
  lemma SplitChunksMeaning(script: seq<ReadStep>, writeFails: nat -> bool)
    requires WellFormedReader(script)
    ensures var k := DataSteps(script);
      var r := SplitChunks(script, writeFails);
      && (r.Split? <==> EndsWithEof(script) && forall j :: 0 <= j < k ==> !writeFails(j))
      && (r == SplitError(Cancelled) <==> script[k].Cancel? && forall j :: 0 <= j < k ==> !writeFails(j))
      && (r.Split? ==> && Flatten(r.chunks) == Consumed(script)
                       && |Consumed(script)| == TotalLength(r.chunks)
                       && forall j :: 0 <= j < |r.chunks| ==> |r.chunks[j]| <= ChunkSize)
  {
    SplitFromMeaning(script, writeFails, 0);
    var k := DataSteps(script);
    assert Payloads(script, k)[0..] == Payloads(script, k);
    FlattenLength(Payloads(script, k));
  }

  /** The pieces a ChunkSize buffer cuts data into: full buffers, then the
      remainder. */
  function Blocks(data: seq<byte>): (r: seq<seq<byte>>)
    decreases |data|
  {
    if data == [] then []
    else if |data| <= ChunkSize then [data]
    else [data[..ChunkSize]] + Blocks(data[ChunkSize..])
  }

  /** ceil(n / ChunkSize), counted the way Blocks cuts. */
  function ChunkCount(n: nat): (c: nat)
    decreases n
  {
    if n == 0 then 0 else if n <= ChunkSize then 1 else 1 + ChunkCount(n - ChunkSize)
  }

  lemma {:induction false} ChunkCountIsCeiling(n: nat)
    ensures ChunkCount(n) == (n + ChunkSize - 1) / ChunkSize
    decreases n
  {
    if n > ChunkSize {
      ChunkCountIsCeiling(n - ChunkSize);
      assert (n + ChunkSize - 1) / ChunkSize == (n - ChunkSize + ChunkSize - 1) / ChunkSize + 1;
    }
  }

  lemma {:induction false} BlocksShape(data: seq<byte>)
    ensures |Blocks(data)| == ChunkCount(|data|)
    ensures forall j :: 0 <= j < |Blocks(data)| ==> 0 < |Blocks(data)[j]| <= ChunkSize
    ensures forall j :: 0 <= j < |Blocks(data)| - 1 ==> |Blocks(data)[j]| == ChunkSize
    decreases |data|
  {
    if |data| > ChunkSize {
      BlocksShape(data[ChunkSize..]);
    }
  }

  lemma {:induction false} FlattenBlocks(data: seq<byte>)
    ensures Flatten(Blocks(data)) == data
    decreases |data|
  {
    if |data| > ChunkSize {
      var rest := data[ChunkSize..];
      FlattenBlocks(rest);
      assert Blocks(data)[1..] == Blocks(rest);
      assert data == data[..ChunkSize] + rest;
    } else if data != [] {
      assert Blocks(data)[1..] == [];
      assert data + [] == data;
    }
  }

  /** The Read results of a strings.Reader or bytes.Reader over data with a
      ChunkSize buffer: one full read per block, then (0, io.EOF). */
  function ByteReader(data: seq<byte>): (script: seq<ReadStep>)
    ensures WellFormedReader(script)
  {
    BlocksShape(data);
    var blocks := Blocks(data);
    seq(|blocks|, i requires 0 <= i < |blocks| => Data(blocks[i])) + [Eof([])]
  }

  lemma {:induction false} DataStepsOfScript(steps: seq<ReadStep>, last: ReadStep)
    requires forall i :: 0 <= i < |steps| ==> steps[i].Data?
    requires !last.Data?
    ensures DataSteps(steps + [last]) == |steps|
  {
    if steps != [] {
      DataStepsOfScript(steps[1..], last);
      assert (steps + [last])[1..] == steps[1..] + [last];
    }
  }

  lemma ByteReaderShape(data: seq<byte>)
    ensures var s := ByteReader(data);
      && DataSteps(s) == |Blocks(data)|
      && EndsWithEof(s)
      && Payloads(s, DataSteps(s)) == Blocks(data)
  {
    var blocks := Blocks(data);
    var steps := seq(|blocks|, i requires 0 <= i < |blocks| => Data(blocks[i]));
    DataStepsOfScript(steps, Eof([]));
  }

  /** Storing the bytes of an in-memory reader with no failing write yields
      ceil(|data| / ChunkSize) chunks, all full but the last, that
      concatenate back to data. */
  lemma ByteReaderSplit(data: seq<byte>, writeFails: nat -> bool)
    requires forall j :: !writeFails(j)
    ensures var r := SplitChunks(ByteReader(data), writeFails);
      && r == Split(Blocks(data))
      && Flatten(r.chunks) == data
      && |r.chunks| == (|data| + ChunkSize - 1) / ChunkSize
      && forall j :: 0 <= j < |r.chunks| - 1 ==> |r.chunks[j]| == ChunkSize
  {
    var s := ByteReader(data);
    ByteReaderShape(data);
    BlocksShape(data);
    FlattenBlocks(data);
    ChunkCountIsCeiling(|data|);
    SplitFromMeaning(s, writeFails, 0);
    assert Payloads(s, DataSteps(s))[0..] == Payloads(s, DataSteps(s));
  }

  /** A 12 MiB upload is stored as chunks of 5, 5 and 2 MiB. */
  lemma TwelveMiBUpload(data: seq<byte>, writeFails: nat -> bool)
    requires |data| == 12 * 1024 * 1024
    requires forall j :: !writeFails(j)
    ensures SplitChunks(ByteReader(data), writeFails)
         == Split([data[..ChunkSize], data[ChunkSize..2 * ChunkSize], data[2 * ChunkSize..]])
  {
    ByteReaderSplit(data, writeFails);
    var rest := data[ChunkSize..];
    var last := rest[ChunkSize..];
    assert Blocks(last) == [last];
    assert Blocks(rest) == [rest[..ChunkSize]] + Blocks(last);
    assert rest[..ChunkSize] == data[ChunkSize..2 * ChunkSize];
    assert last == data[2 * ChunkSize..];
  }

  /** An empty upload stores no chunk at all. */
  lemma EmptyUpload(writeFails: nat -> bool)
    ensures SplitChunks(ByteReader([]), writeFails) == Split([])
  {
  }

  // ---------------------------------------------------------------------
  // Reading a stored model back
  // ---------------------------------------------------------------------

  /** The files chunk_0, chunk_1, ... of one model directory. The store
      only ever writes them in index order into a fresh directory, so a
      directory is the sequence of their contents. */
  type ChunkDir = seq<seq<byte>>

  /** What StreamModel hands the writer from chunk i on, for a model with k
      chunks whose directory is dir (None when it is missing): the chunk
      files in index order, stopping at a cancelled context, a file that
      cannot be read or a write that fails. */
  function StreamFrom(dir: Option<ChunkDir>, k: nat, cancelled: nat -> bool, writeFails: nat -> bool, i: nat)
    : (seq<byte>, Outcome)
    decreases k - i
  {
    if k <= i then ([], Pass)
    else if cancelled(i) then ([], Fail(Cancelled))
    else if dir.None? || |dir.value| <= i then ([], Fail(ReadChunkFailed(i)))
    else if writeFails(i) then ([], Fail(WriteChunkFailed(i)))
    else
      var (rest, o) := StreamFrom(dir, k, cancelled, writeFails, i + 1);
      (dir.value[i] + rest, o)
  }

  /** With every chunk file present and neither a cancellation nor a failing
      write, the writer receives the concatenation of the chunks. */
  lemma {:induction false} StreamFromComplete(dir: ChunkDir, cancelled: nat -> bool, writeFails: nat -> bool, i: nat)
    requires i <= |dir|
    requires forall j :: !cancelled(j) && !writeFails(j)
    ensures StreamFrom(Some(dir), |dir|, cancelled, writeFails, i) == (Flatten(dir[i..]), Pass)
    decreases |dir| - i
  {
    if i < |dir| {
      StreamFromComplete(dir, cancelled, writeFails, i + 1);
      assert dir[i..] == [dir[i]] + dir[i + 1..];
    }
  }

  // ---------------------------------------------------------------------
  // The store
  // ---------------------------------------------------------------------

  datatype ModelSummary = ModelSummary(id: string, name: string, size: int, createdAt: int)

  datatype StorageStatus = StorageStatus(totalModels: nat, totalSize: int, basePath: string, models: seq<ModelSummary>)

  function TotalSize(models: seq<ModelSummary>): int {
    if models == [] then 0 else TotalSize(models[..|models| - 1]) + models[|models| - 1].size
  }

  /** A catalog entry agrees with the directory of its model. */
  ghost predicate Consistent(sha: Hasher, id: string, m: ModelMetadata, dirs: map<string, ChunkDir>) {
    && m.id == id
    && id in dirs
    && |dirs[id]| == |m.chunks|
    && m.size == TotalLength(dirs[id])
    && (forall j :: 0 <= j < |dirs[id]| ==> |dirs[id][j]| <= ChunkSize)
    && m.hash == CalculateHash(sha, m)
  }

  ghost predicate CatalogConsistent(sha: Hasher, catalog: map<string, ModelMetadata>, dirs: map<string, ChunkDir>) {
    forall id :: id in catalog ==> Consistent(sha, id, catalog[id], dirs)
  }

  /** The invariant of the store, over its state as plain values: entries
      are filed under their own IDs and agree with their directories, the
      identifier oracle never repeats, and no identifier still to be issued
      names a directory or an entry. */
  ghost predicate StoreInv(sha: Hasher, uuid: nat -> string, issued: nat,
                           catalog: map<string, ModelMetadata>, dirs: map<string, ChunkDir>) {
    && (forall id :: id in catalog ==> catalog[id].id == id)
    && (forall i: nat, j: nat :: uuid(i) == uuid(j) ==> i == j)
    && (forall j: nat :: issued <= j ==> uuid(j) !in dirs && uuid(j) !in catalog)
    && CatalogConsistent(sha, catalog, dirs)
  }

  /** Issuing more identifiers keeps the invariant. */
  lemma StoreInvIssue(sha: Hasher, uuid: nat -> string, issued: nat, issued': nat,
                      catalog: map<string, ModelMetadata>, dirs: map<string, ChunkDir>)
    requires StoreInv(sha, uuid, issued, catalog, dirs) && issued <= issued'
    ensures StoreInv(sha, uuid, issued', catalog, dirs)
  {
  }

  /** Cataloguing a model under an identifier issued since, with a
      directory that agrees with the entry, keeps the invariant. */
  lemma StoreInvAdd(sha: Hasher, uuid: nat -> string, issued: nat, issued': nat,
                    catalog: map<string, ModelMetadata>, dirs: map<string, ChunkDir>,
                    k: nat, m: ModelMetadata, chunks: ChunkDir)
    requires StoreInv(sha, uuid, issued, catalog, dirs)
    requires issued <= k < issued'
    requires Consistent(sha, uuid(k), m, dirs[uuid(k) := chunks])
    ensures StoreInv(sha, uuid, issued', catalog[uuid(k) := m], dirs[uuid(k) := chunks])
  {
    var id := uuid(k);
    var dirs' := dirs[id := chunks];
    forall c | c in catalog
      ensures Consistent(sha, c, catalog[c], dirs')
    {
      assert Consistent(sha, c, catalog[c], dirs);
    }
  }

  /** Dropping an entry (and, or not, its directory) keeps the invariant. */
  lemma StoreInvRemove(sha: Hasher, uuid: nat -> string, issued: nat,
                       catalog: map<string, ModelMetadata>, dirs: map<string, ChunkDir>,
                       id: string, removeDir: bool)
    requires StoreInv(sha, uuid, issued, catalog, dirs)
    ensures StoreInv(sha, uuid, issued, catalog - {id}, if removeDir then dirs - {id} else dirs)
  {
    var dirs' := if removeDir then dirs - {id} else dirs;
    forall c | c in catalog - {id}
      ensures Consistent(sha, c, catalog[c], dirs')
    {
      assert Consistent(sha, c, catalog[c], dirs);
    }
  }

  class Storage {
    const basePath: string
    const sha: Hasher
    /** The identifiers generateUUID hands out, in order. */
    const uuid: nat -> string
    /** How many identifiers have been handed out. */
    var issued: nat
    var catalog: map<string, ModelMetadata>
    var dirs: map<string, ChunkDir>
    var objects: map<string, Object>

    /** Every catalog entry is filed under its own ID. */
    ghost predicate IdsAreKeys()
      reads this
    {
      forall id :: id in catalog ==> catalog[id].id == id
    }

    ghost predicate Valid()
      reads this
    {
      StoreInv(sha, uuid, issued, catalog, dirs)
    }

    /** NewStorage over a base directory that may already hold object
        records: `existing` is what its objects/<id>/metadata.json files
        hold. The table of models lives in memory and starts empty. */
    constructor (basePath: string, sha: Hasher, uuid: nat -> string, existing: map<string, Object>)
      requires forall i: nat, j: nat :: uuid(i) == uuid(j) ==> i == j
      ensures Valid()
      ensures this.basePath == basePath && this.sha == sha && this.uuid == uuid
      ensures issued == 0 && catalog == map[] && dirs == map[] && objects == existing
    {
      this.basePath := basePath;
      this.sha := sha;
      this.uuid := uuid;
      issued := 0;
      catalog := map[];
      dirs := map[];
      objects := existing;
    }

    /** The n identifiers generateUUID hands out after the first `from`. */
    function Ids(from: nat, n: nat): (r: seq<string>)
      ensures |r| == n
    {
      seq(n, j requires 0 <= j < n => uuid(from + j))
    }

    lemma IdsAppend(from: nat, n: nat)
      ensures Ids(from, n + 1) == Ids(from, n) + [uuid(from + n)]
    {
    }

    /** generateUUID */
    method GenerateUuid() returns (id: string)
      modifies this`issued
      ensures id == uuid(old(issued)) && issued == old(issued) + 1
    {
      id := uuid(issued);
      issued := issued + 1;
    }

    /** getMetadata, and GetModel and GetModelMetadata which return what it
        returns: the catalog entry, or "model not found". */
    function GetModel(id: string): (r: Result<ModelMetadata>)
      reads this
      ensures r.Ok? <==> id in catalog
      ensures r.Ok? ==> r.value == catalog[id]
      ensures Valid() && r.Ok? ==> r.value.id == id
      ensures r.Err? ==> r.error == ModelNotFound(id)
    {
      if id in catalog then Ok(catalog[id]) else Err(ModelNotFound(id))
    }

    /** StoreModel: a fresh ID and directory, the reader split into chunk
        files, and on success a catalog entry whose size, chunk list and
        hash describe them. On any failure nothing is catalogued and the
        directory is gone. */
    method StoreModel(name: string, format: string, reader: seq<ReadStep>, now: int,
                      mkdirFails: bool, writeFails: nat -> bool) returns (r: Result<ModelMetadata>)
      requires Valid() && WellFormedReader(reader)
      modifies this`issued, this`catalog, this`dirs
      ensures Valid()
      ensures issued > old(issued)
      ensures var id := uuid(old(issued));
        if mkdirFails then r == Err(IoFailure) && catalog == old(catalog) && dirs == old(dirs)
        else match SplitChunks(reader, writeFails)
          case SplitError(e) => r == Err(e) && catalog == old(catalog) && dirs == old(dirs)
          case Split(chunks) =>
            && r.Ok?
            && r.value == ModelMetadata(id, name, format, TotalLength(chunks), CalculateHash(sha, r.value),
                                        Ids(old(issued) + 1, |chunks|), now, "", [])
            && catalog == old(catalog)[id := r.value]
            && dirs == old(dirs)[id := chunks]
    {
      ghost var k := issued;
      var id := GenerateUuid();
      if mkdirFails {
        StoreInvIssue(sha, uuid, k, issued, catalog, dirs);
        return Err(IoFailure);
      }
      dirs := dirs[id := []];
      var split := SplitAndStoreChunks(id, reader, writeFails);
      if split.Err? {
        dirs := dirs - {id};
        assert dirs == old(dirs);
        StoreInvIssue(sha, uuid, k, issued, catalog, dirs);
        return Err(split.error);
      }
      var (chunkIds, size) := split.value;
      var metadata := ModelMetadata(id, name, format, size, "", chunkIds, now, "", []);
      metadata := metadata.(hash := CalculateHash(sha, metadata));
      SplitChunksMeaning(reader, writeFails);
      assert dirs == old(dirs)[id := dirs[id]];
      StoreInvAdd(sha, uuid, k, issued, catalog, old(dirs), k, metadata, dirs[id]);
      catalog := catalog[id := metadata];
      r := Ok(metadata);
    }

    /** splitAndStoreChunks: read turn by turn; each turn that delivers data
        takes a fresh chunk ID and writes chunk_<index> into the directory
        of the model. */
    method SplitAndStoreChunks(id: string, reader: seq<ReadStep>, writeFails: nat -> bool)
      returns (r: Result<(seq<string>, int)>)
      requires WellFormedReader(reader) && id in dirs && dirs[id] == []
      modifies this`issued, this`dirs
      ensures issued >= old(issued)
      ensures id in dirs && dirs == old(dirs)[id := dirs[id]]
      ensures match SplitChunks(reader, writeFails)
        case SplitError(e) => r == Err(e)
        case Split(chunks) =>
          && r == Ok((Ids(old(issued), |chunks|), TotalLength(chunks)))
          && dirs[id] == chunks
          && issued == old(issued) + |chunks|
    {
      var chunks: seq<string> := [];
      var totalSize := 0;
      var chunkIndex := 0;
      ghost var dirs0, start := dirs, issued;
      while true
        invariant 0 <= chunkIndex < |reader|
        invariant id in dirs && dirs == dirs0[id := dirs[id]] && |dirs[id]| == chunkIndex
        invariant chunks == Ids(start, chunkIndex)
        invariant totalSize == TotalLength(dirs[id])
        invariant issued == start + chunkIndex
        invariant SplitChunks(reader, writeFails) == Prepend(dirs[id], SplitFrom(reader, writeFails, chunkIndex))
        decreases |reader| - chunkIndex
      {
        var step := reader[chunkIndex];
        if step.Cancel? {
          return Err(Cancelled);
        } else if step.ReadFailure? {
          return Err(IoFailure);
        } else if step.Eof? {
          assert dirs[id] + [] == dirs[id];
          return Ok((chunks, totalSize));
        }
        var data := step.bytes;
        var chunkId := GenerateUuid();
        var chunk := ModelChunk(chunkId, data, chunkIndex, "", "");
        ghost var written := dirs[id];
        var stored := StoreChunk(id, chunk, writeFails(chunkIndex));
        if stored.Fail? {
          return Err(stored.error);
        }
        IdsAppend(start, chunkIndex);
        chunks := chunks + [chunkId];
        FlattenAppend(written, data);
        PrependAppend(written, data, SplitFrom(reader, writeFails, chunkIndex + 1));
        totalSize := totalSize + |data|;
        chunkIndex := chunkIndex + 1;
      }
    }

    /** storeChunk: os.WriteFile of the chunk's data as chunk_<index> in the
        model's directory, which holds the chunks before it. */
    method StoreChunk(id: string, chunk: ModelChunk, writeFails: bool) returns (o: Outcome)
      requires id in dirs && chunk.index == |dirs[id]|
      modifies this`dirs
      ensures writeFails ==> o == Fail(IoFailure) && dirs == old(dirs)
      ensures !writeFails ==> o == Pass && dirs == old(dirs)[id := old(dirs)[id] + [chunk.data]]
    {
      if writeFails {
        return Fail(IoFailure);
      }
      dirs := dirs[id := dirs[id] + [chunk.data]];
      o := Pass;
    }

    /** StreamModel: "model not found" for an unknown ID; otherwise the
        chunk files, in index order, go to the writer. */
    method StreamModel(id: string, cancelled: nat -> bool, writeFails: nat -> bool)
      returns (written: seq<byte>, o: Outcome)
      ensures id !in catalog ==> written == [] && o == Fail(ModelNotFound(id))
      ensures id in catalog ==>
        (written, o) == StreamFrom(if id in dirs then Some(dirs[id]) else None,
                                   |catalog[id].chunks|, cancelled, writeFails, 0)
      ensures Valid() && id in catalog && (forall j :: !cancelled(j) && !writeFails(j)) ==>
        o == Pass && written == Flatten(dirs[id])
    {
      var m := GetModel(id);
      if m.Err? {
        return [], Fail(m.error);
      }
      var dir := if id in dirs then Some(dirs[id]) else None;
      var k := |m.value.chunks|;
      written := [];
      var i := 0;
      assert [] + StreamFrom(dir, k, cancelled, writeFails, 0).0 == StreamFrom(dir, k, cancelled, writeFails, 0).0;
      while i < k
        invariant 0 <= i <= k
        invariant StreamFrom(dir, k, cancelled, writeFails, 0).0 == written + StreamFrom(dir, k, cancelled, writeFails, i).0
        invariant StreamFrom(dir, k, cancelled, writeFails, 0).1 == StreamFrom(dir, k, cancelled, writeFails, i).1
      {
        if cancelled(i) || dir.None? || |dir.value| <= i || writeFails(i) {
          assert written + [] == written;
          o := if cancelled(i) then Fail(Cancelled)
               else if dir.None? || |dir.value| <= i then Fail(ReadChunkFailed(i))
               else Fail(WriteChunkFailed(i));
          return;
        }
        written := written + dir.value[i];
        i := i + 1;
      }
      assert written + [] == written;
      o := Pass;
      if Valid() && (forall j :: !cancelled(j) && !writeFails(j)) {
        StreamFromComplete(dirs[id], cancelled, writeFails, 0);
        assert dirs[id][0..] == dirs[id];
      }
    }

    /** DeleteModel: "model not found" for an unknown ID; otherwise the
        entry leaves the catalog first, then the directory is removed (a
        failing removal is reported but the entry stays gone). */
    method DeleteModel(id: string, removeFails: bool) returns (o: Outcome)
      requires Valid()
      modifies this`catalog, this`dirs
      ensures Valid()
      ensures id !in old(catalog) ==> o == Fail(ModelNotFound(id)) && catalog == old(catalog) && dirs == old(dirs)
      ensures id in old(catalog) ==>
        && catalog == old(catalog) - {id}
        && if removeFails then o == Fail(IoFailure) && dirs == old(dirs) else o == Pass && dirs == old(dirs) - {id}
    {
      if id !in catalog {
        return Fail(ModelNotFound(id));
      }
      StoreInvRemove(sha, uuid, issued, catalog, dirs, id, !removeFails);
      catalog := catalog - {id};
      if removeFails {
        return Fail(IoFailure);
      }
      dirs := dirs - {id};
      o := Pass;
    }

    /** ListModels: one copy of every catalog entry, in no particular order. */
    method ListModels() returns (models: seq<ModelMetadata>)
      requires IdsAreKeys()
      ensures |models| == |catalog|
      ensures forall i :: 0 <= i < |models| ==> models[i].id in catalog && catalog[models[i].id] == models[i]
      ensures forall i, j :: 0 <= i < j < |models| ==> models[i].id != models[j].id
    {
      models := [];
      var keys := catalog.Keys;
      while keys != {}
        invariant keys <= catalog.Keys
        invariant |models| + |keys| == |catalog|
        invariant forall i :: 0 <= i < |models| ==> models[i].id in catalog && models[i].id !in keys && catalog[models[i].id] == models[i]
        invariant forall i, j :: 0 <= i < j < |models| ==> models[i].id != models[j].id
        decreases |keys|
      {
        var id :| id in keys;
        models := models + [catalog[id]];
        keys := keys - {id};
      }
    }

    /** GetStatus: the number of models, the sum of their sizes and one
        summary per catalog entry. */
    method GetStatus() returns (status: StorageStatus)
      requires IdsAreKeys()
      ensures status.totalModels == |catalog| == |status.models|
      ensures status.basePath == basePath
      ensures status.totalSize == TotalSize(status.models)
      ensures forall i :: 0 <= i < |status.models| ==>
        var s := status.models[i];
        s.id in catalog && s == ModelSummary(s.id, catalog[s.id].name, catalog[s.id].size, catalog[s.id].createdAt)
      ensures forall i, j :: 0 <= i < j < |status.models| ==> status.models[i].id != status.models[j].id
    {
      var models: seq<ModelSummary> := [];
      var total := 0;
      var keys := catalog.Keys;
      while keys != {}
        invariant keys <= catalog.Keys
        invariant |models| + |keys| == |catalog|
        invariant total == TotalSize(models)
        invariant forall i :: 0 <= i < |models| ==>
          var s := models[i];
          s.id in catalog && s.id !in keys && s == ModelSummary(s.id, catalog[s.id].name, catalog[s.id].size, catalog[s.id].createdAt)
        invariant forall i, j :: 0 <= i < j < |models| ==> models[i].id != models[j].id
        decreases |keys|
      {
        var id :| id in keys;
        var m := catalog[id];
        total := total + m.size;
        var summary := ModelSummary(m.id, m.name, m.size, m.createdAt);
        assert (models + [summary])[..|models|] == models;
        models := models + [summary];
        keys := keys - {id};
      }
      status := StorageStatus(|catalog|, total, basePath, models);
    }

    // -------------------------------------------------------------------
    // Object metadata files (objects/<id>/metadata.json)
    // -------------------------------------------------------------------

    /** StoreObject: an object without an ID gets a fresh one (the caller
        sees it even when the write then fails); the metadata file is
        written, replacing any earlier one. */
    method StoreObject(obj: Object, mkdirFails: bool, writeFails: bool) returns (stored: Object, o: Outcome)
      requires Valid()
      modifies this`issued, this`objects
      ensures Valid()
      ensures obj.id == "" ==> stored == obj.(id := uuid(old(issued))) && issued == old(issued) + 1
      ensures obj.id != "" ==> stored == obj && issued == old(issued)
      ensures mkdirFails || writeFails ==> o == Fail(IoFailure) && objects == old(objects)
      ensures !mkdirFails && !writeFails ==> o == Pass && objects == old(objects)[stored.id := stored]
    {
      stored := obj;
      if obj.id == "" {
        var id := GenerateUuid();
        stored := obj.(id := id);
      }
      if mkdirFails || writeFails {
        return stored, Fail(IoFailure);
      }
      objects := objects[stored.id := stored];
      o := Pass;
    }

    /** GetObject: the stored record, or "object not found". */
    function GetObject(id: string): (r: Result<Object>)
      reads this
      ensures r.Ok? <==> id in objects
      ensures r.Ok? ==> r.value == objects[id]
      ensures r.Err? ==> r.error == ObjectNotFound(id)
    {
      if id in objects then Ok(objects[id]) else Err(ObjectNotFound(id))
    }

    /** DeleteObject: removes the object's directory; an absent one is not
        an error. */
    method DeleteObject(id: string, removeFails: bool) returns (o: Outcome)
      requires Valid()
      modifies this`objects
      ensures Valid()
      ensures removeFails ==> o == Fail(IoFailure) && objects == old(objects)
      ensures !removeFails ==> o == Pass && objects == old(objects) - {id}
    {
      if removeFails {
        return Fail(IoFailure);
      }
      objects := objects - {id};
      o := Pass;
    }
  }

  /** A model stored from a reader that ends in io.EOF streams back exactly
      the bytes that were read from it, when no file operation fails. */
  method StoreThenStream(s: Storage, name: string, format: string, reader: seq<ReadStep>, now: int)
    returns (written: seq<byte>, o: Outcome)
    requires s.Valid() && WellFormedReader(reader) && EndsWithEof(reader)
    modifies s
    ensures o == Pass && written == Consumed(reader)
  {
    var noFault := (j: nat) => false;
    SplitChunksMeaning(reader, noFault);
    var r := s.StoreModel(name, format, reader, now, false, noFault);
    var id := r.value.id;
    written, o := s.StreamModel(id, noFault, noFault);
  }

  /** After DeleteModel succeeds the model can be neither looked up nor
      streamed, and its directory is gone. */
  method DeleteThenGet(s: Storage, id: string, cancelled: nat -> bool, writeFails: nat -> bool)
    returns (o: Outcome, lookup: Result<ModelMetadata>, streamed: Outcome)
    requires s.Valid()
    modifies s
    ensures old(id in s.catalog) ==> o == Pass || o == Fail(IoFailure)
    ensures lookup == Err(ModelNotFound(id)) && streamed == Fail(ModelNotFound(id))
    ensures o == Pass ==> id !in s.dirs
  {
    o := s.DeleteModel(id, false);
    lookup := s.GetModel(id);
    var _, out := s.StreamModel(id, cancelled, writeFails);
    streamed := out;
  }
}
