/** scene/src/type_id_generator.rs: one id generator per object type, shared by all scenes. */
module TypeIdGenerator {
  import opened Wrappers
  import opened SceneChange

  /** The per-type `Generator` (scene/src/id.rs is not part of this model), reduced to its
      default value and its two operations. */
  datatype GeneratorOps<!G> = GeneratorOps(initial: G, acquire: G -> (G, Id), release: (G, Id) -> G)

  /** The generators that exist, by type. */
  type Generators<G> = map<TypeTag, G>

  /** `acquire`: asks the type's generator for an id, creating a default generator on first
      use; the other types' generators are untouched. */
  function Acquired<G>(ops: GeneratorOps<G>, ids: Generators<G>, tid: TypeTag): (r: (Generators<G>, Id))
    ensures r.0.Keys == ids.Keys + {tid}
    ensures forall t :: t in ids && t != tid ==> r.0[t] == ids[t]
    ensures tid in ids ==> (r.0[tid], r.1) == ops.acquire(ids[tid])
    ensures tid !in ids ==> (r.0[tid], r.1) == ops.acquire(ops.initial)
  {
    var g := if tid in ids then ids[tid] else ops.initial;
    var (g', id) := ops.acquire(g);
    (ids[tid := g'], id)
  }

  /** `release`: gives an id back to the type's generator; `None` is the panic the source
      raises when no generator exists for the type. */
  function Released<G>(ops: GeneratorOps<G>, ids: Generators<G>, tid: TypeTag, id: Id): (r: Option<Generators<G>>)
    ensures r.None? <==> tid !in ids
    ensures r.Some? ==> r.value.Keys == ids.Keys
    ensures r.Some? ==> forall t :: t in ids && t != tid ==> r.value[t] == ids[t]
    ensures r.Some? ==> r.value[tid] == ops.release(ids[tid], id)
  {
    if tid in ids then Some(ids[tid := ops.release(ids[tid], id)]) else None
  }

  /** The pairs `changes.iter().flat_map(destructive_change)` yields, in order. */
  function DestructivePairs<M, L, V>(changes: seq<SceneChange<M, L, V>>): seq<(TypeTag, Id)>
  {
    if |changes| == 0 then []
    else
      var last := DestructiveChange(changes[|changes| - 1]);
      DestructivePairs(changes[..|changes| - 1]) + (if last.Some? then [last.value] else [])
  }

  /** A pair is yielded exactly when some change is a deletion reporting it. */
  lemma {:induction false} DestructivePairsSpec<M, L, V>(changes: seq<SceneChange<M, L, V>>, p: (TypeTag, Id))
    ensures p in DestructivePairs(changes) <==>
      exists i :: 0 <= i < |changes| && DestructiveChange(changes[i]) == Some(p)
    decreases |changes|
  {
    if |changes| > 0 {
      var init := changes[..|changes| - 1];
      DestructivePairsSpec(init, p);
      assert forall i :: 0 <= i < |init| ==> init[i] == changes[i];
      if exists i :: 0 <= i < |changes| && DestructiveChange(changes[i]) == Some(p) {
        var i :| 0 <= i < |changes| && DestructiveChange(changes[i]) == Some(p);
        if i < |init| {
          assert DestructiveChange(init[i]) == Some(p);
        }
      }
    }
  }

  /** Creations and updates never release: only deletions contribute pairs. */
  lemma {:induction false} DestructivePairsCount<M, L, V>(changes: seq<SceneChange<M, L, V>>)
    ensures |DestructivePairs(changes)| <= |changes|
    ensures (forall i :: 0 <= i < |changes| ==> !IsDelete(changes[i])) ==> DestructivePairs(changes) == []
    decreases |changes|
  {
    if |changes| > 0 {
      var init := changes[..|changes| - 1];
      DestructivePairsCount(init);
      assert forall i :: 0 <= i < |init| ==> init[i] == changes[i];
    }
  }

  /** Releases the pairs in order; `None` when one of them panics. */
  function ReleaseAll<G>(ops: GeneratorOps<G>, ids: Generators<G>, pairs: seq<(TypeTag, Id)>): Option<Generators<G>>
  {
    if |pairs| == 0 then Some(ids)
    else
      var before := ReleaseAll(ops, ids, pairs[..|pairs| - 1]);
      var (tid, id) := pairs[|pairs| - 1];
      if before.None? then None else Released(ops, before.value, tid, id)
  }

  /** Releasing never adds or removes a generator, so `gc` panics exactly when a deletion
      names a type for which no id was ever acquired. */
  lemma {:induction false} ReleaseAllPanics<G>(ops: GeneratorOps<G>, ids: Generators<G>, pairs: seq<(TypeTag, Id)>)
    ensures ReleaseAll(ops, ids, pairs).Some? ==> ReleaseAll(ops, ids, pairs).value.Keys == ids.Keys
    ensures ReleaseAll(ops, ids, pairs).None? <==> exists k :: 0 <= k < |pairs| && pairs[k].0 !in ids
    decreases |pairs|
  {
    if |pairs| > 0 {
      var init := pairs[..|pairs| - 1];
      ReleaseAllPanics(ops, ids, init);
      assert forall k :: 0 <= k < |init| ==> init[k] == pairs[k];
    }
  }

  /** A type that no released pair names keeps its generator as it was. */
  lemma {:induction false} ReleaseAllKeepsOthers<G>(ops: GeneratorOps<G>, ids: Generators<G>, pairs: seq<(TypeTag, Id)>, t: TypeTag)
    requires t in ids
    requires forall k :: 0 <= k < |pairs| ==> pairs[k].0 != t
    ensures ReleaseAll(ops, ids, pairs).Some? ==>
      t in ReleaseAll(ops, ids, pairs).value && ReleaseAll(ops, ids, pairs).value[t] == ids[t]
    decreases |pairs|
  {
    if |pairs| > 0 {
      var init := pairs[..|pairs| - 1];
      ReleaseAllPanics(ops, ids, init);
      ReleaseAllKeepsOthers(ops, ids, init, t);
    }
  }

  /** `TypeIdGenerator`; the process-wide instance behind a mutex is one object of this class. */
  class TypeIdGenerator<G> {
    var ids: Generators<G>
    const ops: GeneratorOps<G>

    /** The `Default` value: no generators yet. */
    constructor (ops: GeneratorOps<G>)
      ensures ids == map[] && this.ops == ops
    {
      this.ids := map[];
      this.ops := ops;
    }

    /** `acquire(tid)`. */
    method Acquire(tid: TypeTag) returns (id: Id)
      modifies this
      ensures (ids, id) == Acquired(ops, old(ids), tid)
    {
      var r := Acquired(ops, ids, tid);
      ids := r.0;
      id := r.1;
    }

    /** `release(tid, id)`; `panicked` is the source's `expect` failing, which leaves the
        generators as they were. */
    method Release(tid: TypeTag, id: Id) returns (panicked: bool)
      modifies this
      ensures panicked <==> tid !in old(ids)
      ensures !panicked ==> Some(ids) == Released(ops, old(ids), tid, id)
      ensures panicked ==> ids == old(ids)
    {
      panicked := tid !in ids;
      if !panicked {
        ids := ids[tid := ops.release(ids[tid], id)];
      }
    }

    /** `id_generator::gc`: releases the id of every deletion, in order; it stops at the
        first release that panics. */
    method Gc<M, L, V>(changes: seq<SceneChange<M, L, V>>) returns (panicked: bool)
      modifies this
      ensures panicked <==> ReleaseAll(ops, old(ids), DestructivePairs(changes)).None?
      ensures !panicked ==> Some(ids) == ReleaseAll(ops, old(ids), DestructivePairs(changes))
    {
      panicked := false;
      var i := 0;
      while i < |changes|
        invariant 0 <= i <= |changes|
        invariant Some(ids) == ReleaseAll(ops, old(ids), DestructivePairs(changes[..i]))
      {
        assert changes[..i + 1][..i] == changes[..i];
        var d := DestructiveChange(changes[i]);
        assert DestructivePairs(changes[..i + 1]) ==
          DestructivePairs(changes[..i]) + (if d.Some? then [d.value] else []);
        if d.Some? {
          ghost var pairs := DestructivePairs(changes[..i + 1]);
          assert pairs[..|pairs| - 1] == DestructivePairs(changes[..i]);
          assert pairs[|pairs| - 1] == d.value;
          ghost var before := ids;
          ReleaseAllPanics(ops, old(ids), DestructivePairs(changes[..i]));
          panicked := Release(d.value.0, d.value.1);
          if panicked {
            ghost var all := DestructivePairs(changes);
            DestructivePairsSpec(changes, d.value);
            ghost var k :| 0 <= k < |all| && all[k] == d.value;
            ReleaseAllPanics(ops, old(ids), all);
            return;
          }
          assert ReleaseAll(ops, old(ids), pairs) == Released(ops, before, d.value.0, d.value.1);
          assert Some(ids) == ReleaseAll(ops, old(ids), pairs);
        } else {
          assert DestructivePairs(changes[..i + 1]) == DestructivePairs(changes[..i]);
        }
        i := i + 1;
      }
      assert changes[..|changes|] == changes;
    }
  }
}
