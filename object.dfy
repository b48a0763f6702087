/** The object service of pkg/core/object.go: an object is a model file
    stored as vertex blocks plus a metadata record listing their hashes. */
module Objects {
  import opened Common
  import opened Fbx
  import opened ModelRecords
  import opened ModelStorage
  import opened BlockStore
  import opened BlockService
  import opened Vertices

  /** The blocks left after DeleteBlock is called on the hashes from the
      i-th on, stopping at the first failure. A hash whose block is already
      gone fails with "no such file"; `removeFails(i)` says whether removing
      the i-th block fails. */
  function DeleteFrom(blocks: map<string, seq<byte>>, hashes: seq<string>, removeFails: nat -> bool, i: nat)
    : (map<string, seq<byte>>, Outcome)
    requires i <= |hashes|
    decreases |hashes| - i
  {
    if i == |hashes| then (blocks, Pass)
    else if hashes[i] !in blocks then (blocks, Fail(NoSuchFile(hashes[i])))
    else if removeFails(i) then (blocks, Fail(IoFailure))
    else DeleteFrom(blocks - {hashes[i]}, hashes, removeFails, i + 1)
  }

  /** Deleting blocks only removes blocks: what is left is a part of what
      was there, unchanged, and none of the hashes already passed over. */
  lemma {:induction false} DeleteFromShrinks(blocks: map<string, seq<byte>>, hashes: seq<string>,
                                             removeFails: nat -> bool, i: nat)
    requires i <= |hashes|
    ensures var d := DeleteFrom(blocks, hashes, removeFails, i);
      forall h :: h in d.0 ==> h in blocks && d.0[h] == blocks[h]
    decreases |hashes| - i
  {
    if i < |hashes| && hashes[i] in blocks && !removeFails(i) {
      DeleteFromShrinks(blocks - {hashes[i]}, hashes, removeFails, i + 1);
    }
  }

  /** The deletions all succeed exactly when the hashes are distinct, all
      stored, and no removal fails; then exactly their blocks are gone. */
  lemma {:induction false} DeleteFromPasses(blocks: map<string, seq<byte>>, hashes: seq<string>,
                                            removeFails: nat -> bool, i: nat)
    requires i <= |hashes|
    ensures DeleteFrom(blocks, hashes, removeFails, i).1 == Pass <==>
      (forall k :: i <= k < |hashes| ==> hashes[k] in blocks && !removeFails(k)) &&
      (forall j, k :: i <= j < k < |hashes| ==> hashes[j] != hashes[k])
    ensures DeleteFrom(blocks, hashes, removeFails, i).1 == Pass ==>
      DeleteFrom(blocks, hashes, removeFails, i).0 == blocks - set k | i <= k < |hashes| :: hashes[k]
    decreases |hashes| - i
  {
    if i < |hashes| {
      var h := hashes[i];
      if h in blocks && !removeFails(i) {
        var rest := blocks - {h};
        DeleteFromPasses(rest, hashes, removeFails, i + 1);
        var later := set k | i + 1 <= k < |hashes| :: hashes[k];
        assert (set k | i <= k < |hashes| :: hashes[k]) == {h} + later;
        if DeleteFrom(rest, hashes, removeFails, i + 1).1 == Pass {
          assert forall k :: i + 1 <= k < |hashes| ==> hashes[k] in rest;
        } else if (forall k :: i + 1 <= k < |hashes| ==> hashes[k] in rest && !removeFails(k)) {
          assert !(forall j, k :: i + 1 <= j < k < |hashes| ==> hashes[j] != hashes[k]);
        } else {
          var k :| i + 1 <= k < |hashes| && !(hashes[k] in rest && !removeFails(k));
          if hashes[k] !in rest && hashes[k] in blocks {
            assert hashes[k] == h;
          }
        }
      }
    }
  }

  /** A model with a repeated vertex has a repeated block hash, and then
      DeleteObject's loop removes the shared block at its first occurrence
      and fails with "no such file" at its second. */
  lemma RepeatedHashFailsDelete(blocks: map<string, seq<byte>>, hashes: seq<string>, removeFails: nat -> bool,
                                j: nat, k: nat)
    requires j < k < |hashes| && hashes[j] == hashes[k]
    ensures DeleteFrom(blocks, hashes, removeFails, 0).1 != Pass
  {
    DeleteFromPasses(blocks, hashes, removeFails, 0);
  }

  /** Together: an object created from a model in which a vertex repeats
      lists the repeated vertex's hash twice, so deleting its blocks can
      never complete, whatever blocks are then stored. */
  lemma RepeatedVertexBlocksDelete(sha: Hasher, blocks: map<string, seq<byte>>, vs: seq<Vertex>, writeFails: nat -> bool,
                                   later: map<string, seq<byte>>, removeFails: nat -> bool, j: nat, k: nat)
    requires j < k < |vs| && vs[j] == vs[k]
    requires StoreFrom(sha, blocks, vs, writeFails, 0).1.Ok?
    ensures DeleteFrom(later, StoreFrom(sha, blocks, vs, writeFails, 0).1.value, removeFails, 0).1 != Pass
  {
    SharedVertexSameHash(sha, blocks, vs, writeFails, j, k);
    RepeatedHashFailsDelete(later, StoreFrom(sha, blocks, vs, writeFails, 0).1.value, removeFails, j, k);
  }

  /** The outcome of DeleteObject for an object whose metadata is stored:
      its blocks' deletion, then the removal of its metadata. */
  function DeleteOutcome(blocksDeleted: Outcome, metaRemoveFails: bool): Outcome {
    if blocksDeleted.Fail? then blocksDeleted
    else if metaRemoveFails then Fail(IoFailure)
    else Pass
  }

  /** The ObjectService of pkg/core/object.go. */
  class ObjectService {
    const blockService: Service
    const storage: Storage

    /** NewObjectService */
    constructor (blockService: Service, storage: Storage)
      ensures this.blockService == blockService && this.storage == storage
    {
      this.blockService := blockService;
      this.storage := storage;
    }

    ghost predicate Valid()
      reads this, blockService, blockService.store, storage
    {
      blockService.store.Valid() && storage.Valid()
    }

    /** CreateObject: the model's blocks are stored, then a metadata
        record naming them under a newly generated ID. A failure in either
        step returns the error; blocks already stored stay stored.
        `createdAt` and `updatedAt` are the two clock readings. */
    method CreateObject(fops: FloatOps, name: string, format: string, data: seq<byte>,
                        writeFails: nat -> bool, mkdirFails: bool, metaWriteFails: bool,
                        createdAt: int, updatedAt: int)
      returns (r: Result<Object>)
      requires Valid()
      requires format == "fbx" ==> |data| <= SizeLimit
      modifies blockService.store, storage`issued, storage`objects
      ensures Valid()
      ensures var p := ProcessModel(blockService.store.sha, old(blockService.store.blocks), fops, format, data, writeFails);
        blockService.store.blocks == p.0
      ensures var p := ProcessModel(blockService.store.sha, old(blockService.store.blocks), fops, format, data, writeFails);
        p.1.Err? ==> r == Err(p.1.error) && storage.objects == old(storage.objects) && storage.issued == old(storage.issued)
      ensures var p := ProcessModel(blockService.store.sha, old(blockService.store.blocks), fops, format, data, writeFails);
        p.1.Ok? ==> storage.issued == old(storage.issued) + 1
      ensures var p := ProcessModel(blockService.store.sha, old(blockService.store.blocks), fops, format, data, writeFails);
        p.1.Ok? && (mkdirFails || metaWriteFails) ==> r == Err(IoFailure) && storage.objects == old(storage.objects)
      ensures var p := ProcessModel(blockService.store.sha, old(blockService.store.blocks), fops, format, data, writeFails);
        p.1.Ok? && !mkdirFails && !metaWriteFails ==>
          var obj := Object(storage.uuid(old(storage.issued)), name, format, |data|, p.1.value, [], createdAt, updatedAt);
          r == Ok(obj) && storage.objects == old(storage.objects)[obj.id := obj]
    {
      var blockHashes := blockService.ProcessModelData(fops, format, data, writeFails);
      if blockHashes.Err? {
        return Err(blockHashes.error);
      }
      var obj := Object("", name, format, |data|, blockHashes.value, [], createdAt, updatedAt);
      var stored, o := storage.StoreObject(obj, mkdirFails, metaWriteFails);
      if o.Fail? {
        return Err(o.error);
      }
      r := Ok(stored);
    }

    /** GetObject: the storage's record, or "object not found". */
    function GetObject(id: string): (r: Result<Object>)
      reads storage
      ensures r.Ok? <==> id in storage.objects
      ensures r.Ok? ==> r.value == storage.objects[id]
      ensures r.Err? ==> r.error == ObjectNotFound(id)
    {
      storage.GetObject(id)
    }

    /** DeleteObject: every block of the object is deleted in order, then
        its metadata. An unknown ID changes nothing; the first failing
        block deletion returns its error and keeps the metadata. */
    method DeleteObject(id: string, removeFails: nat -> bool, metaRemoveFails: bool) returns (o: Outcome)
      requires Valid()
      modifies blockService.store, storage`objects
      ensures Valid()
      ensures id !in old(storage.objects) ==>
        o == Fail(ObjectNotFound(id)) && storage.objects == old(storage.objects) &&
        blockService.store.blocks == old(blockService.store.blocks)
      ensures id in old(storage.objects) ==>
        var d := DeleteFrom(old(blockService.store.blocks), old(storage.objects)[id].blockHashes, removeFails, 0);
        blockService.store.blocks == d.0 && o == DeleteOutcome(d.1, metaRemoveFails)
      ensures id in old(storage.objects) ==>
        var d := DeleteFrom(old(blockService.store.blocks), old(storage.objects)[id].blockHashes, removeFails, 0);
        storage.objects == if o == Pass then old(storage.objects) - {id} else old(storage.objects)
    {
      var obj := storage.GetObject(id);
      if obj.Err? {
        return Fail(obj.error);
      }
      var hashes := obj.value.blockHashes;
      ghost var whole := DeleteFrom(blockService.store.blocks, hashes, removeFails, 0);
      for i := 0 to |hashes|
        invariant Valid()
        invariant storage.objects == old(storage.objects)
        invariant whole == DeleteFrom(blockService.store.blocks, hashes, removeFails, i)
      {
        var deleted := blockService.DeleteBlock(hashes[i], removeFails(i));
        if deleted.Fail? {
          return deleted;
        }
      }
      o := storage.DeleteObject(id, metaRemoveFails);
    }
  }

  /** Blocks are not reference-counted: when two objects share a block,
      deleting one of them removes the block the other still lists. */
  method DeleteSharedBlock(s: ObjectService, a: string, b: string, h: string, removeFails: nat -> bool)
    returns (o: Outcome)
    requires s.Valid()
    requires a in s.storage.objects && b in s.storage.objects && a != b
    requires h in s.storage.objects[b].blockHashes && h in s.storage.objects[a].blockHashes
    requires forall k :: !removeFails(k)
    modifies s.blockService.store, s.storage`objects
    ensures o == Pass ==> b in s.storage.objects && h in old(s.storage.objects)[b].blockHashes &&
                          s.storage.objects[b] == old(s.storage.objects)[b] && h !in s.blockService.store.blocks
  {
    ghost var hashes := s.storage.objects[a].blockHashes;
    ghost var blocks := s.blockService.store.blocks;
    o := s.DeleteObject(a, removeFails, false);
    if o == Pass {
      DeleteFromPasses(blocks, hashes, removeFails, 0);
      ghost var k :| 0 <= k < |hashes| && hashes[k] == h;
    }
  }
}
