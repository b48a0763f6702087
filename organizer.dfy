/** The collections of pkg/core/organizer.go. */
module Organizing {
  import opened Common
  import opened References

  /** A Collection: a named list of object IDs. The metadata map is
      created empty and never written; its values are kept as strings. */
  class Collection {
    const id: string
    const name: string
    var objects: seq<string>
    var metadata: map<string, string>

    constructor (id: string, name: string)
      ensures this.id == id && this.name == name && objects == [] && metadata == map[]
    {
      this.id := id;
      this.name := name;
      objects := [];
      metadata := map[];
    }
  }

  /** The Organizer: collections by ID. */
  class Organizer {
    var collections: map<string, Collection>
    const referencer: Referencer

    /** No collection is ever given an ID, so every collection is stored
        under the empty ID, and there is at most one. */
    ghost predicate Valid()
      reads this
    {
      forall id :: id in collections ==> id == "" && collections[id].id == ""
    }

    /** NewOrganizer */
    constructor (referencer: Referencer)
      ensures Valid() && collections == map[] && this.referencer == referencer
    {
      collections := map[];
      this.referencer := referencer;
    }

    /** CreateCollection: a new empty collection with the given name. Its
        ID is left empty, and it is stored under that ID, replacing any
        collection created before. */
    method CreateCollection(name: string) returns (c: Collection)
      requires Valid()
      modifies this`collections
      ensures Valid()
      ensures fresh(c) && c.id == "" && c.name == name && c.objects == [] && c.metadata == map[]
      ensures collections == map["" := c]
    {
      c := new Collection("", name);
      collections := collections[c.id := c];
    }

    /** AddToCollection: appends the object ID to the collection's list,
        duplicates included; an unknown collection ID is an error. */
    method AddToCollection(collectionId: string, objectId: string) returns (o: Outcome)
      requires Valid()
      modifies if collectionId in collections then {collections[collectionId]} else {}
      ensures Valid()
      ensures collectionId !in collections ==> o == Fail(CollectionNotFound)
      ensures collectionId in collections ==>
        o == Pass && collections[collectionId].objects == old(collections[collectionId].objects) + [objectId]
      ensures collectionId in collections ==> collections[collectionId].metadata == old(collections[collectionId].metadata)
    {
      if collectionId !in collections {
        return Fail(CollectionNotFound);
      }
      var collection := collections[collectionId];
      collection.objects := collection.objects + [objectId];
      o := Pass;
    }

    /** GetCollection: the stored collection itself, or "collection not
        found". */
    function GetCollection(id: string): (r: Result<Collection>)
      reads this
      requires Valid()
      ensures r.Ok? <==> id in collections
      ensures r.Ok? ==> r.value == collections[id] && r.value.id == id == ""
      ensures r.Err? ==> r.error == CollectionNotFound
    {
      if id in collections then Ok(collections[id]) else Err(CollectionNotFound)
    }
  }

  /** The only collection that can be found is the last one created, under
      the empty ID; every other ID is not found, and the collection
      created first is replaced. Objects added under the empty ID go to
      the last one, seen through the collection returned at creation. */
  method CreateTwice(org: Organizer, first: string, second: string, objectId: string, other: string)
    returns (a: Collection, b: Collection)
    requires org.Valid() && other != ""
    modifies org
    ensures org.Valid()
    ensures a != b && a.objects == [] && b.objects == [objectId]
    ensures org.GetCollection("") == Ok(b) && org.GetCollection(a.id) == Ok(b)
    ensures org.GetCollection(other) == Err(CollectionNotFound)
  {
    a := org.CreateCollection(first);
    b := org.CreateCollection(second);
    var o := org.AddToCollection(b.id, objectId);
  }
}
