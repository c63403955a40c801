/** renderer/src/render_batches.rs: the visuals to render, bucketed by depth bias and drawn in
    ascending depth. The `RenderVisual` of renderer/src/renderer.rs is not part of this model
    beyond its depth bias; the rest of it and the visual ids are abstract. */
module RenderBatches {
  /** A visual to render with its `depth_bias`. */
  datatype RenderVisual<P> = RenderVisual(depthBias: int, content: P)

  /** The depth of each visual (`visuals_to_depth`). */
  type Depths<I> = map<I, int>

  /** The visuals by depth, one bucket per depth (`by_depth_bias`). */
  type Buckets<I, P> = map<int, map<I, RenderVisual<P>>>

  /** A visual's recorded depth names the one bucket holding it, every bucket entry has its
      depth recorded and sits at its own depth bias, and no bucket is empty. */
  ghost predicate Consistent<I, P>(v: Depths<I>, b: Buckets<I, P>) {
    DepthsHeld(v, b) && EntriesRecorded(v, b) && NoEmptyBucket(b)
  }

  /** Each recorded depth has a bucket holding the id. */
  ghost predicate DepthsHeld<I, P>(v: Depths<I>, b: Buckets<I, P>) {
    forall id :: id in v ==> v[id] in b && id in b[v[id]]
  }

  /** Each bucket entry has its bucket's depth recorded and as its depth bias. */
  ghost predicate EntriesRecorded<I, P>(v: Depths<I>, b: Buckets<I, P>) {
    forall d, id {:trigger id in b[d]} :: d in b && id in b[d] ==> id in v && v[id] == d && b[d][id].depthBias == d
  }

  /** No bucket is empty. */
  ghost predicate NoEmptyBucket<I, P>(b: Buckets<I, P>) {
    forall d :: d in b ==> b[d] != map[]
  }

  /** The visual of every id. */
  ghost function ContentsOf<I, P>(v: Depths<I>, b: Buckets<I, P>): (c: map<I, RenderVisual<P>>)
    requires DepthsHeld(v, b)
    ensures c.Keys == v.Keys
    ensures forall id :: id in v ==> c[id] == b[v[id]][id]
  {
    map id | id in v :: b[v[id]][id]
  }

  /** The bucket of a depth, empty when there is none (`or_default`). */
  function BucketAt<I, P>(b: Buckets<I, P>, d: int): map<I, RenderVisual<P>> {
    if d in b then b[d] else map[]
  }

  /** The buckets with `rv` stored under `id` in the bucket of depth `d` (made when missing). */
  function Stored<I, P>(b: Buckets<I, P>, d: int, id: I, rv: RenderVisual<P>): Buckets<I, P> {
    b[d := BucketAt(b, d)[id := rv]]
  }

  /** The buckets after removing a recorded id: out of its bucket, and the bucket gone when
      that empties it. */
  function BucketsWithout<I, P>(v: Depths<I>, b: Buckets<I, P>, id: I): Buckets<I, P>
    requires DepthsHeld(v, b) && id in v
  {
    var d := v[id];
    var bucket := b[d] - {id};
    if bucket == map[] then b - {d} else b[d := bucket]
  }

  /** The state `insert` leaves: a new id is recorded and stored at its visual's depth, an id
      at the same depth has its entry replaced, and an id at another depth is removed and
      then stored as a new one. */
  function Inserted<I, P>(v: Depths<I>, b: Buckets<I, P>, id: I, rv: RenderVisual<P>): (Depths<I>, Buckets<I, P>)
    requires DepthsHeld(v, b)
  {
    var d := rv.depthBias;
    if id !in v || v[id] == d then (v[id := d], Stored(b, d, id, rv))
    else ((v - {id})[id := d], Stored(BucketsWithout(v, b, id), d, id, rv))
  }

  /** Storing keeps every other bucket entry where it is and puts the new one in place. */
  lemma StoredKeeps<I, P>(b: Buckets<I, P>, d: int, id: I, rv: RenderVisual<P>, e: int, k: I)
    ensures d in Stored(b, d, id, rv) && id in Stored(b, d, id, rv)[d] && Stored(b, d, id, rv)[d][id] == rv
    ensures e in b && k in b[e] && (e != d || k != id) ==>
      e in Stored(b, d, id, rv) && k in Stored(b, d, id, rv)[e] && Stored(b, d, id, rv)[e][k] == b[e][k]
    ensures e in Stored(b, d, id, rv) && k in Stored(b, d, id, rv)[e] && (e != d || k != id) ==>
      e in b && k in b[e]
  {
  }

  /** Storing an id that is unrecorded or recorded at its visual's depth keeps the batches
      consistent. */
  lemma StoreKeepsConsistent<I, P>(v: Depths<I>, b: Buckets<I, P>, id: I, rv: RenderVisual<P>)
    requires Consistent(v, b) && (id !in v || v[id] == rv.depthBias)
    ensures Consistent(v[id := rv.depthBias], Stored(b, rv.depthBias, id, rv))
  {
    var d := rv.depthBias;
    var v': Depths<I>, b': Buckets<I, P> := v[id := d], Stored(b, d, id, rv);
    forall k | k in v'
      ensures v'[k] in b' && k in b'[v'[k]]
    {
      if k != id {
        StoredKeeps(b, d, id, rv, v[k], k);
      } else {
        StoredKeeps(b, d, id, rv, d, k);
      }
    }
    forall e: int, k: I | e in b' && k in b'[e]
      ensures k in v' && v'[k] == e && b'[e][k].depthBias == e
    {
      StoredKeeps(b, d, id, rv, e, k);
    }
    forall e | e in b'
      ensures b'[e] != map[]
    {
      StoredKeeps(b, d, id, rv, e, id);
      if e == d {
        assert id in b'[e];
      }
    }
  }

  /** Storing an id that is unrecorded or recorded at its visual's depth sets its visual and
      keeps every other one. */
  lemma StoreSetsVisual<I, P>(v: Depths<I>, b: Buckets<I, P>, id: I, rv: RenderVisual<P>)
    requires Consistent(v, b) && (id !in v || v[id] == rv.depthBias)
    ensures DepthsHeld(v[id := rv.depthBias], Stored(b, rv.depthBias, id, rv))
    ensures ContentsOf(v[id := rv.depthBias], Stored(b, rv.depthBias, id, rv)) == ContentsOf(v, b)[id := rv]
  {
    StoreKeepsConsistent(v, b, id, rv);
    var d := rv.depthBias;
    var c', c := ContentsOf(v[id := d], Stored(b, d, id, rv)), ContentsOf(v, b)[id := rv];
    forall k | k in c'
      ensures k in c && c'[k] == c[k]
    {
      if k != id {
        StoredKeeps(b, d, id, rv, v[k], k);
      } else {
        StoredKeeps(b, d, id, rv, d, k);
      }
    }
    assert c'.Keys == c.Keys;
  }

  /** Removing a recorded id keeps every other bucket entry where it is. */
  lemma BucketsWithoutKeeps<I, P>(v: Depths<I>, b: Buckets<I, P>, id: I, e: int, k: I)
    requires DepthsHeld(v, b) && id in v && k != id && e in b && k in b[e]
    ensures e in BucketsWithout(v, b, id) && k in BucketsWithout(v, b, id)[e]
    ensures BucketsWithout(v, b, id)[e][k] == b[e][k]
  {
    if e == v[id] {
      assert k in b[e] - {id};
    }
  }

  /** Removing a recorded id keeps the batches consistent and drops its visual. */
  lemma RemoveKeepsConsistent<I, P>(v: Depths<I>, b: Buckets<I, P>, id: I)
    requires Consistent(v, b) && id in v
    ensures Consistent(v - {id}, BucketsWithout(v, b, id))
  {
    var d := v[id];
    var bucket := b[d] - {id};
    var v': Depths<I>, b': Buckets<I, P> := v - {id}, BucketsWithout(v, b, id);
    forall k | k in v'
      ensures v'[k] in b' && k in b'[v'[k]]
    {
      BucketsWithoutKeeps(v, b, id, v[k], k);
    }
  }

  /** Removing a recorded id drops its visual and keeps every other one. */
  lemma RemoveDropsVisual<I, P>(v: Depths<I>, b: Buckets<I, P>, id: I)
    requires Consistent(v, b) && id in v
    ensures DepthsHeld(v - {id}, BucketsWithout(v, b, id))
    ensures ContentsOf(v - {id}, BucketsWithout(v, b, id)) == ContentsOf(v, b) - {id}
  {
    RemoveKeepsConsistent(v, b, id);
    var c', c := ContentsOf(v - {id}, BucketsWithout(v, b, id)), ContentsOf(v, b);
    forall k | k in c'
      ensures k in c - {id} && c'[k] == (c - {id})[k]
    {
      BucketsWithoutKeeps(v, b, id, v[k], k);
    }
    assert c'.Keys == (c - {id}).Keys;
  }

  /** `insert` keeps the batches consistent; afterwards the id is recorded at its visual's
      depth and holds that visual, and every other id keeps its depth and its visual. */
  lemma InsertedKeepsConsistent<I, P>(v: Depths<I>, b: Buckets<I, P>, id: I, rv: RenderVisual<P>)
    requires Consistent(v, b)
    ensures var (v', b') := Inserted(v, b, id, rv);
      Consistent(v', b') && v' == v[id := rv.depthBias] && ContentsOf(v', b') == ContentsOf(v, b)[id := rv]
  {
    var d := rv.depthBias;
    if id !in v || v[id] == d {
      StoreKeepsConsistent(v, b, id, rv);
      StoreSetsVisual(v, b, id, rv);
    } else {
      RemoveKeepsConsistent(v, b, id);
      RemoveDropsVisual(v, b, id);
      StoreKeepsConsistent(v - {id}, BucketsWithout(v, b, id), id, rv);
      StoreSetsVisual(v - {id}, BucketsWithout(v, b, id), id, rv);
      assert (v - {id})[id := d] == v[id := d];
      assert (ContentsOf(v, b) - {id})[id := rv] == ContentsOf(v, b)[id := rv];
    }
  }

  /** A non-empty finite set of depths has a smallest one. */
  lemma {:induction false} SmallestDepth(s: set<int>) returns (d: int)
    requires s != {}
    ensures d in s && forall e :: e in s ==> d <= e
    decreases |s|
  {
    if forall e :: e !in s {
      assert false;
    }
    var x :| x in s;
    if s == {x} {
      d := x;
    } else {
      var rest := SmallestDepth(s - {x});
      d := if x < rest then x else rest;
      assert forall e :: e in s ==> e == x || e in s - {x};
    }
  }

  /** `RenderBatches`: the depth of each visual and the buckets of visuals by depth. */
  class RenderBatches<I(==), P> {
    var visualsToDepth: Depths<I>
    var byDepthBias: Buckets<I, P>

    ghost predicate Valid()
      reads this
    {
      Consistent(visualsToDepth, byDepthBias)
    }

    /** The visual of every id. */
    ghost function Contents(): map<I, RenderVisual<P>>
      requires Valid()
      reads this
    {
      ContentsOf(visualsToDepth, byDepthBias)
    }

    /** The `Default` batches: empty. */
    constructor ()
      ensures visualsToDepth == map[] && byDepthBias == map[] && Valid()
    {
      visualsToDepth := map[];
      byDepthBias := map[];
    }

    /** `insert`: the state `Inserted` describes; a depth change is a `remove` followed by
        an `insert`. */
    method Insert(id: I, rv: RenderVisual<P>)
      requires Valid()
      modifies this
      ensures (visualsToDepth, byDepthBias) == Inserted(old(visualsToDepth), old(byDepthBias), id, rv)
      ensures Valid()
      decreases if id in visualsToDepth then 1 else 0
    {
      InsertedKeepsConsistent(visualsToDepth, byDepthBias, id, rv);
      var depth := rv.depthBias;
      if id !in visualsToDepth {
        visualsToDepth := visualsToDepth[id := depth];
        var bucket := if depth in byDepthBias then byDepthBias[depth] else map[];
        byDepthBias := byDepthBias[depth := bucket[id := rv]];
      } else if visualsToDepth[id] == depth {
        assert visualsToDepth[id := depth] == visualsToDepth;
        byDepthBias := byDepthBias[depth := byDepthBias[depth][id := rv]];
      } else {
        var panicked := Remove(id);
        Insert(id, rv);
      }
    }

    /** `remove`: panics when the id is unknown; otherwise the id leaves the depth map and its
        bucket, and a bucket that becomes empty is removed. The other two panics of the
        source cannot happen in a valid state. */
    method Remove(id: I) returns (panicked: bool)
      requires Valid()
      modifies this
      ensures panicked <==> old(id !in visualsToDepth)
      ensures panicked ==> visualsToDepth == old(visualsToDepth) && byDepthBias == old(byDepthBias)
      ensures !panicked ==>
        visualsToDepth == old(visualsToDepth) - {id} && byDepthBias == BucketsWithout(old(visualsToDepth), old(byDepthBias), id)
      ensures Valid()
    {
      if id !in visualsToDepth {
        return true;
      }
      RemoveKeepsConsistent(visualsToDepth, byDepthBias, id);
      var depth := visualsToDepth[id];
      visualsToDepth := visualsToDepth - {id};
      var bucket := byDepthBias[depth] - {id};
      if bucket == map[] {
        byDepthBias := byDepthBias - {depth};
      } else {
        byDepthBias := byDepthBias[depth := bucket];
      }
      panicked := false;
    }

    /** `render_visuals`: all visuals, bucket after bucket in ascending depth (in no
        particular order within a bucket); `order` names the id of each. */
    method RenderVisuals() returns (s: seq<RenderVisual<P>>, ghost order: seq<I>)
      requires Valid()
      ensures |order| == |s|
      ensures forall i :: 0 <= i < |s| ==> order[i] in Contents() && s[i] == Contents()[order[i]]
      ensures Distinct(order)
      ensures forall id :: id in Contents() ==> id in order
      ensures Ascending(s)
    {
      ghost var v, b := visualsToDepth, byDepthBias;
      s, order := [], [];
      var remaining := byDepthBias.Keys;
      while remaining != {}
        invariant remaining <= b.Keys
        invariant |order| == |s|
        invariant Collected(v, b, s, order, remaining)
        invariant Distinct(order)
        invariant Covered(v, order, remaining)
        invariant Ascending(s)
        invariant Below(s, remaining)
        decreases |remaining|
      {
        ghost var smallest := SmallestDepth(remaining);
        var d :| d in remaining && forall e :: e in remaining ==> d <= e;
        var values, ids := BucketValues(byDepthBias[d]);
        JoinBucket(v, b, s, order, remaining, d, values, ids);
        JoinDepths(s, values, remaining, d);
        s, order := s + values, order + ids;
        remaining := remaining - {d};
      }
      assert Collected(v, b, s, order, {});
    }
  }

  /** The values of a bucket, in no particular order; `ids` names the key of each. */
  method BucketValues<I, P>(bucket: map<I, RenderVisual<P>>) returns (values: seq<RenderVisual<P>>, ghost ids: seq<I>)
    ensures |ids| == |values|
    ensures forall i :: 0 <= i < |values| ==> ids[i] in bucket && values[i] == bucket[ids[i]]
    ensures Distinct(ids)
    ensures forall id :: id in bucket ==> id in ids
  {
    values, ids := [], [];
    var keys := bucket.Keys;
    while keys != {}
      invariant keys <= bucket.Keys && |ids| == |values|
      invariant forall i :: 0 <= i < |values| ==> ids[i] in bucket && ids[i] !in keys && values[i] == bucket[ids[i]]
      invariant forall i, j :: 0 <= i < j < |ids| ==> ids[i] != ids[j]
      invariant forall id :: id in bucket && id !in keys ==> id in ids
      decreases |keys|
    {
      var id :| id in keys;
      values, ids := values + [bucket[id]], ids + [id];
      keys := keys - {id};
    }
  }

  /** Appending the visuals of a remaining depth's bucket keeps what `render_visuals` has
      collected so far, each visual once; those visuals are all at that depth. */
  lemma JoinBucket<I, P>(v: Depths<I>, b: Buckets<I, P>, s: seq<RenderVisual<P>>, order: seq<I>, remaining: set<int>,
                         d: int, values: seq<RenderVisual<P>>, ids: seq<I>)
    requires Consistent(v, b) && remaining <= b.Keys && d in remaining
    requires Collected(v, b, s, order, remaining) && Distinct(order) && Covered(v, order, remaining)
    requires |ids| == |values| && Distinct(ids)
    requires forall i :: 0 <= i < |values| ==> ids[i] in b[d] && values[i] == b[d][ids[i]]
    requires forall id :: id in b[d] ==> id in ids
    ensures Collected(v, b, s + values, order + ids, remaining - {d}) && Distinct(order + ids)
    ensures Covered(v, order + ids, remaining - {d})
    ensures forall i :: 0 <= i < |values| ==> values[i].depthBias == d
  {
    BucketIdsRecorded(v, b, d, values, ids);
    JoinCollected(v, b, s, order, remaining, d, values, ids);
    JoinDistinct(v, b, s, order, remaining, ids, d);
    JoinCovered(v, b, order, remaining, d, ids);
  }

  /** The ids of a bucket are recorded at its depth. */
  lemma BucketIdsRecorded<I, P>(v: Depths<I>, b: Buckets<I, P>, d: int, values: seq<RenderVisual<P>>, ids: seq<I>)
    requires Consistent(v, b) && d in b && |ids| == |values|
    requires forall i :: 0 <= i < |values| ==> ids[i] in b[d] && values[i] == b[d][ids[i]]
    ensures forall i :: 0 <= i < |ids| ==> ids[i] in v && v[ids[i]] == d && values[i] == b[v[ids[i]]][ids[i]]
    ensures forall i :: 0 <= i < |values| ==> values[i].depthBias == d
  {
    forall i | 0 <= i < |ids|
      ensures ids[i] in v && v[ids[i]] == d && values[i].depthBias == d
    {
      assert ids[i] in b[d];
    }
  }

  /** The collected visuals are those of the ids in `order`, at depths no longer
      remaining. */
  ghost predicate Collected<I, P>(v: Depths<I>, b: Buckets<I, P>, s: seq<RenderVisual<P>>, order: seq<I>, remaining: set<int>)
    requires DepthsHeld(v, b)
  {
    |order| == |s| &&
    forall i :: 0 <= i < |s| ==> order[i] in v && v[order[i]] !in remaining && s[i] == b[v[order[i]]][order[i]]
  }

  /** No id appears twice. */
  ghost predicate Distinct<I>(order: seq<I>) {
    forall i, j :: 0 <= i < j < |order| ==> order[i] != order[j]
  }

  /** Every id at a depth no longer remaining is in `order`. */
  ghost predicate Covered<I>(v: Depths<I>, order: seq<I>, remaining: set<int>) {
    forall id :: id in v && v[id] !in remaining ==> id in order
  }

  /** Appending the visuals of the bucket at `d` collects them, once `d` no longer remains. */
  lemma JoinCollected<I, P>(v: Depths<I>, b: Buckets<I, P>, s: seq<RenderVisual<P>>, order: seq<I>, remaining: set<int>,
                            d: int, values: seq<RenderVisual<P>>, ids: seq<I>)
    requires DepthsHeld(v, b) && Collected(v, b, s, order, remaining) && |ids| == |values|
    requires forall i :: 0 <= i < |ids| ==> ids[i] in v && v[ids[i]] == d && values[i] == b[v[ids[i]]][ids[i]]
    ensures Collected(v, b, s + values, order + ids, remaining - {d})
  {
    var s', order' := s + values, order + ids;
    forall i | 0 <= i < |s'|
      ensures order'[i] in v && v[order'[i]] !in remaining - {d} && s'[i] == b[v[order'[i]]][order'[i]]
    {
      if i >= |s| {
        assert order'[i] == ids[i - |s|] && s'[i] == values[i - |s|];
      }
    }
  }

  /** Ids collected so far and the ids of a remaining bucket's depth join without
      repeats. */
  lemma JoinDistinct<I, P>(v: Depths<I>, b: Buckets<I, P>, s: seq<RenderVisual<P>>, order: seq<I>, remaining: set<int>,
                           ids: seq<I>, d: int)
    requires DepthsHeld(v, b) && Collected(v, b, s, order, remaining) && d in remaining
    requires forall i :: 0 <= i < |ids| ==> ids[i] in v && v[ids[i]] == d
    requires Distinct(order) && Distinct(ids)
    ensures Distinct(order + ids)
  {
    var o := order + ids;
    forall i, j | 0 <= i < j < |o|
      ensures o[i] != o[j]
    {
      if j >= |order| {
        assert o[j] == ids[j - |order|];
        if i >= |order| {
          assert o[i] == ids[i - |order|];
        } else {
          assert v[order[i]] != d;
        }
      }
    }
  }

  /** Once `d` no longer remains the ids at it are covered too. */
  lemma JoinCovered<I, P>(v: Depths<I>, b: Buckets<I, P>, order: seq<I>, remaining: set<int>, d: int, ids: seq<I>)
    requires Consistent(v, b) && d in b && Covered(v, order, remaining)
    requires forall id :: id in b[d] ==> id in ids
    ensures Covered(v, order + ids, remaining - {d})
  {
    forall id | id in v && v[id] !in remaining - {d}
      ensures id in order + ids
    {
      if v[id] == d {
        assert id in ids;
      } else {
        assert id in order;
      }
    }
  }

  /** The visuals are in ascending depth. */
  ghost predicate Ascending<P>(s: seq<RenderVisual<P>>) {
    forall i, j :: 0 <= i < j < |s| ==> s[i].depthBias <= s[j].depthBias
  }

  /** Every visual lies below every depth in `remaining`. */
  ghost predicate Below<P>(s: seq<RenderVisual<P>>, remaining: set<int>) {
    forall i, e :: 0 <= i < |s| && e in remaining ==> s[i].depthBias < e
  }

  /** Visuals at the smallest remaining depth, appended to visuals below every remaining
      depth, keep the sequence in ascending depth and below the depths that remain after it. */
  lemma JoinDepths<P>(s: seq<RenderVisual<P>>, values: seq<RenderVisual<P>>, remaining: set<int>, d: int)
    requires Ascending(s) && Below(s, remaining) && d in remaining && forall e :: e in remaining ==> d <= e
    requires forall i :: 0 <= i < |values| ==> values[i].depthBias == d
    ensures Ascending(s + values) && Below(s + values, remaining - {d})
  {
  }
}
