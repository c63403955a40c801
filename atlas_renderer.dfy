/** renderer/src/text_layer/atlas_renderer.rs: turning the instances of an atlas into one
    batch of quads. The GPU buffer and bind group of a batch are represented by the vertices
    uploaded to it. */
module AtlasRenderer {
  import opened Wrappers
  import opened Geometry

  /** `QuadBatch`: the vertices uploaded to the batch's vertex buffer and the number of quads
      to draw. */
  datatype QuadBatch<V> = QuadBatch(vertices: seq<V>, quadCount: nat)

  /** The vertices of `instances`: each instance's four corners, one instance after the
      other. */
  function Vertices<I, V>(instances: seq<I>, toVertices: I -> Quad4<V>): seq<V>
  {
    if |instances| == 0 then []
    else Vertices(instances[..|instances| - 1], toVertices) + toVertices(instances[|instances| - 1]).Seq()
  }

  lemma {:induction false} VerticesLength<I, V>(instances: seq<I>, toVertices: I -> Quad4<V>)
    ensures |Vertices(instances, toVertices)| == 4 * |instances|
  {
    if |instances| > 0 {
      VerticesLength(instances[..|instances| - 1], toVertices);
    }
  }

  /** Vertex `4 q + k` is corner `k` of instance `q`. */
  lemma {:induction false} VerticesAt<I, V>(instances: seq<I>, toVertices: I -> Quad4<V>, q: nat, k: nat)
    requires q < |instances| && k < 4
    ensures |Vertices(instances, toVertices)| == 4 * |instances|
    ensures Vertices(instances, toVertices)[4 * q + k] == toVertices(instances[q]).Seq()[k]
  {
    VerticesLength(instances, toVertices);
    var front := instances[..|instances| - 1];
    VerticesLength(front, toVertices);
    if q < |front| {
      VerticesAt(front, toVertices, q, k);
      assert front[q] == instances[q];
    }
  }

  /** `batch`: no batch for no instances; otherwise every instance's four vertices in order,
      and one quad per instance. */
  method Batch<I, V>(instances: seq<I>, toVertices: I -> Quad4<V>) returns (r: Option<QuadBatch<V>>)
    ensures r.None? <==> |instances| == 0
    ensures r.Some? ==> r.value.vertices == Vertices(instances, toVertices)
    ensures r.Some? ==> r.value.quadCount == |instances| && |r.value.vertices| == 4 * r.value.quadCount
  {
    if |instances| == 0 {
      return None;
    }
    var vertices := [];
    for i := 0 to |instances|
      invariant vertices == Vertices(instances[..i], toVertices)
    {
      assert instances[..i + 1][..i] == instances[..i];
      vertices := vertices + toVertices(instances[i]).Seq();
    }
    assert instances[..|instances|] == instances;
    VerticesLength(instances, toVertices);
    return Some(QuadBatch(vertices, |instances|));
  }
}
