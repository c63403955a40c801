/** renderer/src/scene/location_matrices.rs with the `resolve` of
    renderer/src/scene/dependency_resolver.rs, specialised to its one resolver `VisualMatrix`:
    the world matrix of every location, recomputed lazily against the versions of what it is
    computed from. The matrix type and its product are abstract. */
module LocationMatrices {
  import opened Wrappers
  import opened SceneChange
  import opened Transactions
  import ToolsVersioning
  import opened SceneVersioning

  /** `LocationRenderObj`: the optional parent location and the id of the local matrix. */
  datatype Location = Location(parent: Option<Id>, matrix: Id)

  /** The scene's versioned locations and matrices. */
  datatype Scene<M> = Scene(locations: map<Id, ToolsVersioning.Stamped<Location>>, matrices: map<Id, ToolsVersioning.Stamped<M>>)

  /** The computed matrices by location id (`IdTable<Computed<Matrix4>>`); a missing id holds
      the default. */
  type Cache<M> = map<Id, Computed<M>>

  /** The `Default` of `Computed<Matrix4>`: validated at 0, dependencies at 0, the zero
      matrix. */
  function DefaultComputed<M>(zero: M): (c: Computed<M>)
    ensures c.validatedAt == 0 && c.maxDepsVersion == 0 && c.value == zero
  {
    Computed(0, 0, zero)
  }

  /** `computed_mut`: the entry of `id`, the default when there is none. */
  function Entry<M>(cache: Cache<M>, id: Id, zero: M): Computed<M>
  {
    if id in cache then cache[id] else DefaultComputed(zero)
  }

  /** Each location's parent ranks below it, so a parent chain ends (the source recurses
      through it). */
  ghost predicate Ranked<M>(scene: Scene<M>, rank: map<Id, nat>) {
    scene.locations.Keys <= rank.Keys &&
    forall id :: HasParentIn(scene, id) ==> rank[scene.locations[id].value.parent.value] < rank[id]
  }

  /** `id` is a location whose parent is a location too. */
  predicate HasParentIn<M>(scene: Scene<M>, id: Id) {
    id in scene.locations && scene.locations[id].value.parent.Some? &&
    scene.locations[id].value.parent.value in scene.locations
  }

  /** The termination measure of `resolve`: one above the rank for a location, zero
      otherwise. */
  ghost function Measure<M>(scene: Scene<M>, rank: map<Id, nat>, id: Id): nat
    requires Ranked(scene, rank)
  {
    if id in scene.locations then rank[id] + 1 else 0
  }

  /** The larger of two versions (`max`). */
  function MaxVersion(a: Version, b: Version): Version {
    if a < b then b else a
  }

  /** `resolve::<VisualMatrix>(head, scene, caches, id)`: the version of the dependencies of
      `id`'s matrix and the updated cache, or a panic (`get_unwrapped` of a missing location
      or matrix).
      - already validated at `head`: its stored version, unchanged;
      - otherwise the dependencies' version is the largest of the location's, its local
        matrix's and (after resolving it) its parent's;
      - no newer than the stored one: only `validated_at` moves to `head`;
      - newer: the matrix is recomputed, the local matrix for a root and the parent's
        computed matrix times the local one otherwise. */
  function Resolve<M>(head: Version, scene: Scene<M>, cache: Cache<M>, id: Id, zero: M,
                      compose: (M, M) -> M, ghost rank: map<Id, nat>): Outcome<(Version, Cache<M>)>
    requires Ranked(scene, rank)
    decreases Measure(scene, rank, id)
  {
    var computed := Entry(cache, id, zero);
    var current := computed.maxDepsVersion;
    if computed.validatedAt == head then Returns((current, cache[id := computed]))
    else if id !in scene.locations then Panics
    else
      var source := scene.locations[id];
      if source.value.matrix !in scene.matrices then Panics
      else
        var local := scene.matrices[source.value.matrix];
        var own := MaxVersion(source.updatedAt, local.updatedAt);
        var deps := ResolveDependencies(head, scene, cache[id := computed], source.value.parent, own, zero, compose, rank, id);
        match deps
        case Panics => Panics
        case Returns((depsVersion, cache')) =>
          if depsVersion <= current then
            var stored := Entry(cache', id, zero);
            Returns((current, cache'[id := stored.(validatedAt := head)]))
          else
            var parentValue := if source.value.parent.Some? then Some(Entry(cache', source.value.parent.value, zero).value) else None;
            Returns((depsVersion, cache'[id := Computed(head, depsVersion, Compute(local.value, parentValue, compose))]))
  }

  /** `VisualMatrix::resolve_dependencies`: the own version, folded with the parent's after
      resolving the parent. */
  function ResolveDependencies<M>(head: Version, scene: Scene<M>, cache: Cache<M>, parent: Option<Id>,
                                  own: Version, zero: M, compose: (M, M) -> M, ghost rank: map<Id, nat>,
                                  ghost child: Id): Outcome<(Version, Cache<M>)>
    requires Ranked(scene, rank)
    requires child in scene.locations && scene.locations[child].value.parent == parent
    decreases Measure(scene, rank, child), 0
  {
    if parent.None? then Returns((own, cache))
    else
      match Resolve(head, scene, cache, parent.value, zero, compose, rank)
      case Panics => Panics
      case Returns((_, cache')) =>
        Returns((MaxVersion(Entry(cache', parent.value, zero).maxDepsVersion, own), cache'))
  }

  /** `VisualMatrix::compute`: the local matrix of a root, the parent's matrix times the local
      one otherwise. */
  function Compute<M>(local: M, parent: Option<M>, compose: (M, M) -> M): M
  {
    if parent.Some? then compose(parent.value, local) else local
  }

  /** The ids on the parent chain of `id`, `id` included. */
  predicate OnChain<M>(scene: Scene<M>, rank: map<Id, nat>, id: Id, a: Id)
    requires Ranked(scene, rank)
    decreases Measure(scene, rank, id)
  {
    a == id ||
    (id in scene.locations && scene.locations[id].value.parent.Some? &&
     OnChain(scene, rank, scene.locations[id].value.parent.value, a))
  }

  /** The locations on a parent chain rank no higher than where it starts. */
  lemma {:induction false} OnChainRanksBelow<M>(scene: Scene<M>, rank: map<Id, nat>, id: Id, a: Id)
    requires Ranked(scene, rank)
    requires OnChain(scene, rank, id, a) && a in scene.locations && a != id
    ensures id in scene.locations && rank[a] < rank[id]
    decreases Measure(scene, rank, id)
  {
    var parent := scene.locations[id].value.parent.value;
    if a != parent {
      OnChainRanksBelow(scene, rank, parent, a);
    }
  }

  /** After `resolve` the entry of `id` is validated at `head` and the returned version is
      its stored one; entries validated at `head` stay so, and ids off the parent chain keep
      their entries. */
  lemma {:induction false} ResolveValidates<M>(head: Version, scene: Scene<M>, cache: Cache<M>, id: Id,
                                               zero: M, compose: (M, M) -> M, rank: map<Id, nat>)
    requires Ranked(scene, rank)
    ensures Resolve(head, scene, cache, id, zero, compose, rank).Returns? ==>
      var (v, cache') := Resolve(head, scene, cache, id, zero, compose, rank).value;
      id in cache' && cache'[id].validatedAt == head && v == cache'[id].maxDepsVersion &&
      (forall a :: a in cache && cache[a].validatedAt == head ==> a in cache' && cache'[a].validatedAt == head) &&
      (forall a :: a in cache && !OnChain(scene, rank, id, a) ==> a in cache' && cache'[a] == cache[a])
    decreases Measure(scene, rank, id)
  {
    var computed := Entry(cache, id, zero);
    if computed.validatedAt != head && id in scene.locations {
      var source := scene.locations[id];
      var parent := source.value.parent;
      if parent.Some? && source.value.matrix in scene.matrices {
        var cache1 := cache[id := computed];
        ResolveValidates(head, scene, cache1, parent.value, zero, compose, rank);
        if id in scene.locations && OnChain(scene, rank, parent.value, id) && id != parent.value {
          OnChainRanksBelow(scene, rank, parent.value, id);
          assert HasParentIn(scene, id);
        }
      }
    }
  }

  /** A recomputed matrix is the local matrix of a root and the parent's matrix times the
      local one otherwise; an entry already validated at `head` is returned as it is, and one
      whose dependencies are no newer keeps its matrix and version and is only validated. */
  lemma {:induction false} ResolveComputes<M>(head: Version, scene: Scene<M>, cache: Cache<M>, id: Id,
                           zero: M, compose: (M, M) -> M, rank: map<Id, nat>)
    requires Ranked(scene, rank)
    ensures Entry(cache, id, zero).validatedAt == head ==>
      Resolve(head, scene, cache, id, zero, compose, rank) ==
        Returns((Entry(cache, id, zero).maxDepsVersion, cache[id := Entry(cache, id, zero)]))
    ensures Resolve(head, scene, cache, id, zero, compose, rank).Returns? && Entry(cache, id, zero).validatedAt != head ==>
      var (v, cache') := Resolve(head, scene, cache, id, zero, compose, rank).value;
      var source := scene.locations[id].value;
      var local := scene.matrices[source.matrix];
      v >= local.updatedAt && v >= scene.locations[id].updatedAt &&
      (v > Entry(cache, id, zero).maxDepsVersion ==>
        cache'[id].value == Compute(local.value,
          if source.parent.Some? then Some(Entry(cache', source.parent.value, zero).value) else None, compose)) &&
      (v <= Entry(cache, id, zero).maxDepsVersion ==>
        v == Entry(cache, id, zero).maxDepsVersion && cache'[id] == Entry(cache, id, zero).(validatedAt := head))
  {
    var computed := Entry(cache, id, zero);
    if computed.validatedAt != head && id in scene.locations {
      var source := scene.locations[id];
      var parent := source.value.parent;
      if parent.Some? && source.value.matrix in scene.matrices {
        var cache1 := cache[id := computed];
        ResolveValidates(head, scene, cache1, parent.value, zero, compose, rank);
        if OnChain(scene, rank, parent.value, id) && id != parent.value {
          OnChainRanksBelow(scene, rank, parent.value, id);
          assert HasParentIn(scene, id);
        }
      }
    }
  }

  /** `LocationMatrices`. */
  class LocationMatrices<M> {
    var locationMatrix: Cache<M>
    const zero: M
    const compose: (M, M) -> M

    /** The `Default` value: no computed matrices. */
    constructor (zero: M, compose: (M, M) -> M)
      ensures locationMatrix == map[] && this.zero == zero && this.compose == compose
    {
      locationMatrix := map[];
      this.zero := zero;
      this.compose := compose;
    }

    /** `compute_matrices`: resolves every location in order at the transaction's version;
        `panicked` is a `get_unwrapped` failing, which stops it. */
    method ComputeMatrices(scene: Scene<M>, transaction: Transaction, locations: seq<Id>, ghost rank: map<Id, nat>)
      returns (panicked: bool)
      requires Ranked(scene, rank)
      modifies this
      ensures !panicked ==> forall i :: 0 <= i < |locations| ==>
        locations[i] in locationMatrix && locationMatrix[locations[i]].validatedAt == transaction.currentVersion
    {
      panicked := false;
      for i := 0 to |locations|
        invariant forall k :: 0 <= k < i ==>
          locations[k] in locationMatrix && locationMatrix[locations[k]].validatedAt == transaction.currentVersion
      {
        var r := Resolve(transaction.currentVersion, scene, locationMatrix, locations[i], zero, compose, rank);
        if r.Panics? {
          return true;
        }
        ResolveValidates(transaction.currentVersion, scene, locationMatrix, locations[i], zero, compose, rank);
        locationMatrix := r.value.1;
      }
    }

    /** `get`: the matrix of a location (the default for one never computed). */
    function Get(id: Id): (m: M)
      reads this
      ensures id !in locationMatrix ==> m == zero
      ensures id in locationMatrix ==> m == locationMatrix[id].value
    {
      Entry(locationMatrix, id, zero).value
    }
  }
}
