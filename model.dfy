/** The records of package core (pkg/core/model.go and the Object record of
    pkg/core/object.go) and the metadata-integrity hash. */
module ModelRecords {
  import opened Common

  /** The catalog entry for one stored model. Timestamps are plain numbers
      supplied by the caller. */
  datatype ModelMetadata = ModelMetadata(
    id: string,
    name: string,
    format: string,
    size: int,
    hash: string,
    chunks: seq<string>,
    createdAt: int,
    owner: string,
    permissions: seq<string>)

  /** One chunk as splitAndStoreChunks builds it before writing its data. */
  datatype ModelChunk = ModelChunk(id: string, data: seq<byte>, index: nat, modelId: string, hash: string)

  /** The metadata of a block-backed object (pkg/core/object.go). */
  datatype Object = Object(
    id: string,
    name: string,
    format: string,
    size: int,
    blockHashes: seq<string>,
    materials: seq<string>,
    createdAt: int,
    updatedAt: int)

  /** ModelMetadata.CalculateHash: lower-case hex SHA-256 of the UTF-8 bytes
      of ID, Name and Format concatenated without separators. */
  function CalculateHash(sha: Hasher, m: ModelMetadata): (r: string)
    ensures |r| == 64
    ensures forall i :: 0 <= i < |r| ==> IsHexDigit(r[i])
  {
    HexDigest(sha, Utf8(m.id + m.name + m.format))
  }

  /** The hash covers identity, not content: size, chunks, owner,
      permissions (and the stored hash itself) do not affect it. */
  lemma HashIgnoresContent(sha: Hasher, a: ModelMetadata, b: ModelMetadata)
    requires a.id == b.id && a.name == b.name && a.format == b.format
    ensures CalculateHash(sha, a) == CalculateHash(sha, b)
  {
  }

  /** Only the concatenation of the three fields is hashed, so different
      splits of the same text collide. */
  lemma HashSeesOnlyConcatenation(sha: Hasher, a: ModelMetadata, b: ModelMetadata)
    requires a.id + a.name + a.format == b.id + b.name + b.format
    ensures CalculateHash(sha, a) == CalculateHash(sha, b)
  {
  }

  lemma ConcatenationCollision(sha: Hasher, m: ModelMetadata)
    ensures CalculateHash(sha, m.(id := "ab", name := "c")) == CalculateHash(sha, m.(id := "a", name := "bc"))
  {
    assert "ab" + "c" + m.format == "a" + "bc" + m.format;
  }
}
