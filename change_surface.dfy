/** scene/src/change_surface.rs: a coarse set of the ids that changed. */
module ChangeSurface {
  import opened SceneChange

  /** No id occurs twice in `s`. */
  predicate Distinct(s: seq<Id>) {
    forall i, j :: 0 <= i < j < |s| ==> s[i] != s[j]
  }

  /** Lists the ids of a set, each once, in an order the set does not fix (a hash set's
      drain order). */
  method Enumerate(ids: set<Id>) returns (r: seq<Id>)
    ensures Distinct(r)
    ensures forall id :: id in r <==> id in ids
    ensures |r| == |ids|
  {
    r := [];
    var rest := ids;
    while rest != {}
      invariant Distinct(r)
      invariant forall id :: id in r <==> id in ids && id !in rest
      invariant rest <= ids
      invariant |r| + |rest| == |ids|
      decreases |rest|
    {
      var x :| x in rest;
      r := r + [x];
      rest := rest - {x};
    }
  }

  /** `ChangedIds`: the change surface for a set of ids. */
  class ChangedIds {
    var changed: set<Id>

    /** The `Default` value: nothing changed. */
    constructor ()
      ensures changed == {}
    {
      changed := {};
    }

    /** `add`: records one id; recording an id twice is the same as recording it once. */
    method Add(id: Id)
      modifies this
      ensures changed == old(changed) + {id}
    {
      changed := changed + {id};
    }

    /** `take_all`: yields every recorded id exactly once and leaves the surface empty. */
    method TakeAll() returns (taken: seq<Id>)
      modifies this
      ensures Distinct(taken)
      ensures forall id :: id in taken <==> id in old(changed)
      ensures changed == {}
    {
      taken := Enumerate(changed);
      changed := {};
    }
  }
}
