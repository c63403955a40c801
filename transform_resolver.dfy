/** scene/src/transform_resolver.rs: the final transform of a location, its parent's final
    transform composed with its local one, memoised per location. Locations go by id, the
    transform type and its product are abstract. */
module TransformResolver {
  import opened Wrappers
  import opened SceneChange

  /** What the resolver reads of a `Location`: the optional parent and the local transform. */
  datatype LocationValue<X> = LocationValue(parent: Option<Id>, transform: X)

  /** Every parent is a location (a parent is a handle, so it exists) ranked below its child,
      so a parent chain ends. */
  ghost predicate Ranked<X>(locations: map<Id, LocationValue<X>>, rank: map<Id, nat>) {
    locations.Keys <= rank.Keys &&
    forall id :: HasParent(locations, id) ==>
      locations[id].parent.value in locations && rank[locations[id].parent.value] < rank[id]
  }

  /** `id` is a location with a parent. */
  predicate HasParent<X>(locations: map<Id, LocationValue<X>>, id: Id) {
    id in locations && locations[id].parent.Some?
  }

  /** The final transform of a location: the local transform of a root, the parent's final
      transform times the local one for a child. */
  function Resolved<X>(locations: map<Id, LocationValue<X>>, ghost rank: map<Id, nat>, compose: (X, X) -> X, id: Id): X
    requires Ranked(locations, rank) && id in locations
    decreases rank[id]
  {
    var l := locations[id];
    if l.parent.Some? then
      assert HasParent(locations, id);
      compose(Resolved(locations, rank, compose, l.parent.value), l.transform)
    else l.transform
  }

  /** A root resolves to its local transform and a child to its parent's resolved transform
      composed with its own. */
  lemma ResolvedComposes<X>(locations: map<Id, LocationValue<X>>, rank: map<Id, nat>, compose: (X, X) -> X, id: Id)
    requires Ranked(locations, rank) && id in locations
    ensures locations[id].parent.None? ==> Resolved(locations, rank, compose, id) == locations[id].transform
    ensures locations[id].parent.Some? ==>
      locations[id].parent.value in locations &&
      Resolved(locations, rank, compose, id) ==
        compose(Resolved(locations, rank, compose, locations[id].parent.value), locations[id].transform)
  {
    if locations[id].parent.Some? {
      assert HasParent(locations, id);
    }
  }

  /** `a` is `id` or one of its ancestors. */
  predicate OnChain<X>(locations: map<Id, LocationValue<X>>, rank: map<Id, nat>, id: Id, a: Id)
    requires Ranked(locations, rank) && id in locations
    decreases rank[id]
  {
    a == id ||
    (HasParent(locations, id) && OnChain(locations, rank, locations[id].parent.value, a))
  }

  /** `TransformResolver`: the memo of resolved transforms. */
  class TransformResolver<X> {
    var memo: map<Id, X>
    const compose: (X, X) -> X

    /** The `Default` resolver: nothing memoised. */
    constructor (compose: (X, X) -> X)
      ensures memo == map[] && this.compose == compose
    {
      memo := map[];
      this.compose := compose;
    }

    /** Every memoised transform is the final transform of its location under `locations`,
        and the parent of a memoised location is memoised too. */
    ghost predicate Consistent(locations: map<Id, LocationValue<X>>, rank: map<Id, nat>)
      reads this
    {
      Ranked(locations, rank) &&
      forall a :: a in memo ==>
        a in locations && memo[a] == Resolved(locations, rank, compose, a) &&
        (HasParent(locations, a) ==> locations[a].parent.value in memo)
    }

    /** In a consistent memo, the ancestors of a memoised location are memoised. */
    lemma {:induction false} ConsistentChain(locations: map<Id, LocationValue<X>>, rank: map<Id, nat>, id: Id, a: Id)
      requires Consistent(locations, rank) && id in memo && OnChain(locations, rank, id, a)
      ensures a in memo
      decreases rank[id]
    {
      if a != id {
        ConsistentChain(locations, rank, locations[id].parent.value, a);
      }
    }

    /** `resolve`: the memoised transform when there is one, even if the locations changed
        since; otherwise the parent is resolved first and the result is memoised. The memo
        only grows and keeps what it has, afterwards holds `id` and all its ancestors, and
        stays consistent with `locations` when it was. */
    method Resolve(locations: map<Id, LocationValue<X>>, id: Id, ghost rank: map<Id, nat>) returns (t: X)
      requires Ranked(locations, rank) && id in locations
      modifies this
      decreases rank[id]
      ensures old(id in memo) ==> t == old(memo[id]) && memo == old(memo)
      ensures id in memo && memo[id] == t
      ensures forall a :: a in old(memo) ==> a in memo && memo[a] == old(memo[a])
      ensures old(Consistent(locations, rank)) ==>
        Consistent(locations, rank) && t == Resolved(locations, rank, compose, id) &&
        forall a :: OnChain(locations, rank, id, a) ==> a in memo
    {
      if id in memo {
        if Consistent(locations, rank) {
          forall a | OnChain(locations, rank, id, a) {
            ConsistentChain(locations, rank, id, a);
          }
        }
        return memo[id];
      }
      var l := locations[id];
      if l.parent.Some? {
        assert HasParent(locations, id);
        var p := Resolve(locations, l.parent.value, rank);
        t := compose(p, l.transform);
      } else {
        t := l.transform;
      }
      memo := memo[id := t];
    }
  }
}
