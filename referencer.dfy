/** The object references of pkg/core/referencer.go: for every object ID,
    the IDs it references and the IDs that reference it. */
module References {
  import opened Common

  /** A map entry, or the empty list for an absent key, as Go reads a nil
      slice from a map. */
  function Lookup(m: map<string, seq<string>>, id: string): (r: seq<string>)
    ensures id !in m ==> r == []
    ensures id in m ==> r == m[id]
  {
    if id in m then m[id] else []
  }

  /** Each reference from `a` to `b` is recorded once among a's references
      and once among b's back references. */
  ghost predicate Mirrored(refs: map<string, seq<string>>, backRefs: map<string, seq<string>>) {
    forall a, b :: multiset(Lookup(refs, a))[b] == multiset(Lookup(backRefs, b))[a]
  }

  /** Recording a reference keeps the two maps mirrored. */
  lemma AddKeepsMirrored(refs: map<string, seq<string>>, backRefs: map<string, seq<string>>, from: string, to: string)
    requires Mirrored(refs, backRefs)
    ensures Mirrored(refs[from := Lookup(refs, from) + [to]], backRefs[to := Lookup(backRefs, to) + [from]])
  {
    var refs' := refs[from := Lookup(refs, from) + [to]];
    var backRefs' := backRefs[to := Lookup(backRefs, to) + [from]];
    forall a, b
      ensures multiset(Lookup(refs', a))[b] == multiset(Lookup(backRefs', b))[a]
    {
      assert multiset(Lookup(refs, a))[b] == multiset(Lookup(backRefs, b))[a];
    }
  }

  /** The Referencer. */
  class Referencer {
    var refs: map<string, seq<string>>
    var backRefs: map<string, seq<string>>

    ghost predicate Valid()
      reads this
    {
      Mirrored(refs, backRefs)
    }

    /** NewReferencer */
    constructor ()
      ensures Valid() && refs == map[] && backRefs == map[]
    {
      refs := map[];
      backRefs := map[];
    }

    /** AddReference: appends `to` to from's references and `from` to to's
        back references; it never fails, and a repeated reference is
        recorded again. */
    method AddReference(from: string, to: string) returns (o: Outcome)
      requires Valid()
      modifies this
      ensures Valid()
      ensures o == Pass
      ensures refs == old(refs)[from := Lookup(old(refs), from) + [to]]
      ensures backRefs == old(backRefs)[to := Lookup(old(backRefs), to) + [from]]
    {
      AddKeepsMirrored(refs, backRefs, from, to);
      refs := refs[from := Lookup(refs, from) + [to]];
      backRefs := backRefs[to := Lookup(backRefs, to) + [from]];
      o := Pass;
    }

    /** GetReferences: a copy of the object's references, empty for an
        unknown object; each one is matched by a back reference. */
    function GetReferences(id: string): (r: seq<string>)
      reads this
      requires Valid()
      ensures id in refs ==> r == refs[id]
      ensures id !in refs ==> r == []
      ensures forall to :: multiset(r)[to] == multiset(Lookup(backRefs, to))[id]
    {
      Lookup(refs, id)
    }

    /** GetBackReferences: a copy of the objects referencing this one,
        empty for an unknown object; each one is matched by a reference. */
    function GetBackReferences(id: string): (r: seq<string>)
      reads this
      requires Valid()
      ensures id in backRefs ==> r == backRefs[id]
      ensures id !in backRefs ==> r == []
      ensures forall from :: multiset(r)[from] == multiset(Lookup(refs, from))[id]
    {
      Lookup(backRefs, id)
    }
  }
}
