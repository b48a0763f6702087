/** The content-addressed block store of pkg/blocks/store.go: every block is
    a file in the store's directory named by the lower-case hex SHA-256 of
    its contents. The directory is modelled as a map from file name to
    contents; write and remove faults of the operating system are
    parameters. */
module BlockStore {
  import opened Common

  /** A block as GetBlock returns it. */
  datatype Block = Block(hash: string, size: int, data: seq<byte>)

  /** calculateHash: hex.EncodeToString(sha256.Sum256(data)). */
  function BlockHash(sha: Hasher, data: seq<byte>): (r: string)
    ensures |r| == 64
    ensures forall i :: 0 <= i < |r| ==> IsHexDigit(r[i])
  {
    HexDigest(sha, data)
  }

  /** Two blocks get the same name exactly when SHA-256 gives their
      contents the same digest. */
  lemma BlockHashEqual(sha: Hasher, a: seq<byte>, b: seq<byte>)
    ensures BlockHash(sha, a) == BlockHash(sha, b) <==> sha(a) == sha(b)
  {
    HexDigestEqual(sha, a, b);
  }

  class Store {
    const basePath: string
    const sha: Hasher
    /** The files of the store's directory: name to contents. */
    var blocks: map<string, seq<byte>>

    /** Every file is named by the hash of its contents. */
    ghost predicate Valid()
      reads this
    {
      forall h :: h in blocks ==> h == BlockHash(sha, blocks[h])
    }

    /** NewStore over a directory that may already hold blocks: `existing`
        is what it holds, each block file named by the hash of its bytes. */
    constructor (basePath: string, sha: Hasher, existing: map<string, seq<byte>>)
      requires forall h :: h in existing ==> h == BlockHash(sha, existing[h])
      ensures Valid() && this.basePath == basePath && this.sha == sha && blocks == existing
    {
      this.basePath := basePath;
      this.sha := sha;
      blocks := existing;
    }

    /** getBlockPath */
    function BlockPath(hash: string): string {
      basePath + "/" + hash
    }

    /** StoreBlock: the block's hash; a block already present is not
        written again; a failed write returns the empty hash and an error. */
    method StoreBlock(data: seq<byte>, writeFails: bool) returns (hash: string, o: Outcome)
      requires Valid()
      modifies this
      ensures Valid()
      ensures old(BlockHash(sha, data) in blocks) ==>
        hash == BlockHash(sha, data) && o == Pass && blocks == old(blocks)
      ensures old(BlockHash(sha, data) !in blocks) && writeFails ==>
        hash == "" && o == Fail(IoFailure) && blocks == old(blocks)
      ensures old(BlockHash(sha, data) !in blocks) && !writeFails ==>
        hash == BlockHash(sha, data) && o == Pass && blocks == old(blocks)[hash := data]
    {
      hash := BlockHash(sha, data);
      if hash in blocks {
        return hash, Pass;
      }
      if writeFails {
        return "", Fail(IoFailure);
      }
      blocks := blocks[hash := data];
      o := Pass;
    }

    /** GetBlock: the file's contents with their size, or "block not
        found". */
    function GetBlock(hash: string): (r: Result<Block>)
      reads this
      ensures r.Ok? <==> hash in blocks
      ensures r.Ok? ==> r.value == Block(hash, |blocks[hash]|, blocks[hash])
      ensures r.Err? ==> r.error == BlockNotFound
      ensures Valid() && r.Ok? ==> BlockHash(sha, r.value.data) == hash
    {
      if hash in blocks then Ok(Block(hash, |blocks[hash]|, blocks[hash])) else Err(BlockNotFound)
    }

    /** DeleteBlock: os.Remove of the block's file, which fails when there
        is no such file. */
    method DeleteBlock(hash: string, removeFails: bool) returns (o: Outcome)
      requires Valid()
      modifies this
      ensures Valid()
      ensures hash !in old(blocks) ==> o == Fail(NoSuchFile(hash)) && blocks == old(blocks)
      ensures hash in old(blocks) && removeFails ==> o == Fail(IoFailure) && blocks == old(blocks)
      ensures hash in old(blocks) && !removeFails ==> o == Pass && blocks == old(blocks) - {hash}
    {
      if hash !in blocks {
        return Fail(NoSuchFile(hash));
      }
      if removeFails {
        return Fail(IoFailure);
      }
      blocks := blocks - {hash};
      o := Pass;
    }
  }

  /** Storing the same data twice is idempotent: the second call returns
      the same hash and leaves the store as the first left it. */
  method StoreTwice(s: Store, data: seq<byte>, firstWriteFails: bool, secondWriteFails: bool)
    returns (h1: string, h2: string)
    requires s.Valid()
    modifies s
    ensures s.Valid()
    ensures !firstWriteFails ==> h1 == h2 == BlockHash(s.sha, data)
    ensures !firstWriteFails && h1 in old(s.blocks) ==> s.blocks == old(s.blocks)
    ensures !firstWriteFails && h1 !in old(s.blocks) ==> s.blocks == old(s.blocks)[h1 := data]
  {
    var o1, o2;
    h1, o1 := s.StoreBlock(data, firstWriteFails);
    ghost var after := s.blocks;
    h2, o2 := s.StoreBlock(data, secondWriteFails);
    assert !firstWriteFails ==> s.blocks == after;
  }

  /** A block read back after it was stored is found under the returned
      name. It holds the stored bytes unless a block of that name was
      already present, in which case it keeps the earlier contents, whose
      digest then collides with that of the new data. */
  method StoreThenGet(s: Store, data: seq<byte>) returns (r: Result<Block>)
    requires s.Valid()
    modifies s
    ensures r.Ok? && r.value.hash == BlockHash(s.sha, data) && r.value.size == |r.value.data|
    ensures BlockHash(s.sha, data) !in old(s.blocks) ==> r.value.data == data
    ensures BlockHash(s.sha, data) in old(s.blocks) ==> r.value.data == old(s.blocks)[BlockHash(s.sha, data)]
    ensures r.value.data == data || s.sha(r.value.data) == s.sha(data)
  {
    var h, o := s.StoreBlock(data, false);
    r := s.GetBlock(h);
    BlockHashEqual(s.sha, r.value.data, data);
  }
}
