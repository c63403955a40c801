/** renderer/src/quads/renderer.rs: the layers of colored quads and the indices drawn for them.
    Vertex buffers are represented by the vertices uploaded to them; pipelines and bind groups
    are not part of this model. */
module QuadsRenderer {
  import opened Wrappers
  import opened Geometry
  import AtlasRenderer
  import QuadIndexBuffer

  /** `Quad`: four corner positions and one color. */
  datatype Quad = Quad(vertices: Quad4<Vector3>, color: Color)

  /** The shapes of a scene layer; glyph runs are drawn elsewhere. */
  datatype Shape = GlyphRunShape | QuadsShape(quads: seq<Quad>)

  /** `ColorVertex`: a corner and the quad's color. */
  datatype ColorVertex = ColorVertex(position: Vector3, color: Color)

  /** `QuadsLayer`, `M` being the model matrix. */
  datatype QuadsLayer<M> = QuadsLayer(modelMatrix: M, vertices: seq<ColorVertex>, quadCount: nat)

  /** The four vertices `prepare_quads` emits for one quad, in corner order. */
  function QuadVertices(quad: Quad): Quad4<ColorVertex>
  {
    Quad4(ColorVertex(quad.vertices.v0, quad.color), ColorVertex(quad.vertices.v1, quad.color),
          ColorVertex(quad.vertices.v2, quad.color), ColorVertex(quad.vertices.v3, quad.color))
  }

  /** The quads of the `Quads` shapes, in order. */
  function AllQuads(shapes: seq<Shape>): seq<Quad>
  {
    if |shapes| == 0 then []
    else
      var last := shapes[|shapes| - 1];
      AllQuads(shapes[..|shapes| - 1]) + (if last.QuadsShape? then last.quads else [])
  }

  /** The layer `prepare_quads` makes of the shapes: none without quads, otherwise four
      vertices per quad and `vertices.len() >> 2` quads. */
  function LayerOf<M>(matrix: M, shapes: seq<Shape>): Option<QuadsLayer<M>>
  {
    var vertices := AtlasRenderer.Vertices(AllQuads(shapes), QuadVertices);
    if |vertices| == 0 then None else Some(QuadsLayer(matrix, vertices, |vertices| / 4))
  }

  /** A layer exists exactly when the shapes hold quads; it counts them, and vertex `4 q + k`
      is corner `k` of quad `q` in that quad's color. */
  lemma LayerOfQuads<M>(matrix: M, shapes: seq<Shape>)
    ensures LayerOf(matrix, shapes).None? <==> |AllQuads(shapes)| == 0
    ensures LayerOf(matrix, shapes).Some? ==>
      var layer := LayerOf(matrix, shapes).value;
      layer.modelMatrix == matrix && layer.quadCount == |AllQuads(shapes)| > 0 &&
      |layer.vertices| == 4 * layer.quadCount &&
      forall q, k :: 0 <= q < layer.quadCount && 0 <= k < 4 ==>
        layer.vertices[4 * q + k] ==
          ColorVertex(AllQuads(shapes)[q].vertices.Seq()[k], AllQuads(shapes)[q].color)
  {
    var quads := AllQuads(shapes);
    AtlasRenderer.VerticesLength(quads, QuadVertices);
    forall q, k | 0 <= q < |quads| && 0 <= k < 4
      ensures AtlasRenderer.Vertices(quads, QuadVertices)[4 * q + k] ==
        ColorVertex(quads[q].vertices.Seq()[k], quads[q].color)
    {
      AtlasRenderer.VerticesAt(quads, QuadVertices, q, k);
    }
  }

  /** Appending one instance appends its four vertices. */
  lemma VerticesSnoc<I, V>(instances: seq<I>, x: I, toVertices: I -> Quad4<V>)
    ensures AtlasRenderer.Vertices(instances + [x], toVertices) ==
      AtlasRenderer.Vertices(instances, toVertices) + toVertices(x).Seq()
  {
    assert (instances + [x])[..|instances|] == instances;
  }

  /** The inner loop of `prepare_quads`: appends the four vertices of each quad. */
  method ExtendVertices(vertices: seq<ColorVertex>, ghost before: seq<Quad>, quads: seq<Quad>)
    returns (r: seq<ColorVertex>)
    requires vertices == AtlasRenderer.Vertices(before, QuadVertices)
    ensures r == AtlasRenderer.Vertices(before + quads, QuadVertices)
  {
    r := vertices;
    assert before + quads[..0] == before;
    for j := 0 to |quads|
      invariant r == AtlasRenderer.Vertices(before + quads[..j], QuadVertices)
    {
      VerticesSnoc(before + quads[..j], quads[j], QuadVertices);
      assert before + quads[..j + 1] == before + quads[..j] + [quads[j]];
      var qv := quads[j].vertices;
      var color := quads[j].color;
      r := r + [ColorVertex(qv.v0, color), ColorVertex(qv.v1, color),
                ColorVertex(qv.v2, color), ColorVertex(qv.v3, color)];
    }
    assert quads[..|quads|] == quads;
  }

  /** `prepare_quads`: the vertices of every quad of every `Quads` shape, and a layer for
      them unless there are none. */
  method PrepareQuads<M>(matrix: M, shapes: seq<Shape>) returns (r: Option<QuadsLayer<M>>)
    ensures r == LayerOf(matrix, shapes)
  {
    var vertices := [];
    for i := 0 to |shapes|
      invariant vertices == AtlasRenderer.Vertices(AllQuads(shapes[..i]), QuadVertices)
    {
      assert shapes[..i + 1][..i] == shapes[..i];
      if shapes[i].QuadsShape? {
        assert AllQuads(shapes[..i + 1]) == AllQuads(shapes[..i]) + shapes[i].quads;
        vertices := ExtendVertices(vertices, AllQuads(shapes[..i]), shapes[i].quads);
      } else {
        assert AllQuads(shapes[..i + 1]) == AllQuads(shapes[..i]) + [];
        assert AllQuads(shapes[..i + 1]) == AllQuads(shapes[..i]);
      }
    }
    assert shapes[..|shapes|] == shapes;
    if |vertices| == 0 {
      return None;
    }
    return Some(QuadsLayer(matrix, vertices, |vertices| / 4));
  }

  /** The layers `prepare` keeps: one per group of shapes that holds quads, in order. */
  function Layers<M>(groups: seq<(M, seq<Shape>)>): seq<QuadsLayer<M>>
  {
    if |groups| == 0 then []
    else
      var (matrix, shapes) := groups[|groups| - 1];
      var layer := LayerOf(matrix, shapes);
      Layers(groups[..|groups| - 1]) + (if layer.Some? then [layer.value] else [])
  }

  /** The largest `quad_count` of the layers, `0` for none. */
  function MaxQuadCount<M>(layers: seq<QuadsLayer<M>>): (r: nat)
    ensures forall i :: 0 <= i < |layers| ==> layers[i].quadCount <= r
    ensures |layers| == 0 ==> r == 0
    ensures |layers| > 0 ==> exists i :: 0 <= i < |layers| && layers[i].quadCount == r
  {
    if |layers| == 0 then 0
    else
      var front := MaxQuadCount(layers[..|layers| - 1]);
      var last := layers[|layers| - 1].quadCount;
      if front <= last then last else front
  }

  /** Every kept layer holds at least one quad and four vertices per quad. */
  lemma {:induction false} LayersAreNonEmpty<M>(groups: seq<(M, seq<Shape>)>)
    ensures forall i :: 0 <= i < |Layers(groups)| ==>
      Layers(groups)[i].quadCount > 0 && |Layers(groups)[i].vertices| == 4 * Layers(groups)[i].quadCount
  {
    if |groups| > 0 {
      LayersAreNonEmpty(groups[..|groups| - 1]);
      LayerOfQuads(groups[|groups| - 1].0, groups[|groups| - 1].1);
    }
  }

  /** The number of indices `render` draws per layer: nothing at all when no layer has quads,
      else six per quad. */
  function Draws<M>(layers: seq<QuadsLayer<M>>): seq<nat>
  {
    if MaxQuadCount(layers) == 0 then []
    else seq(|layers|, i requires 0 <= i < |layers| => QuadIndexBuffer.IndicesPerQuad * layers[i].quadCount)
  }

  /** With an index buffer that can index the largest layer (below 2^14 quads), every index
      a layer's draw reads addresses one of that layer's vertices. */
  lemma DrawsAddressLayer<M>(groups: seq<(M, seq<Shape>)>, capacity: nat, i: nat)
    requires MaxQuadCount(Layers(groups)) <= capacity && MaxQuadCount(Layers(groups)) <= 0x4000
    requires i < |Draws(Layers(groups))|
    ensures Draws(Layers(groups))[i] <= |QuadIndexBuffer.QuadIndexArray(capacity)|
    ensures forall k :: 0 <= k < Draws(Layers(groups))[i] ==>
      0 <= QuadIndexBuffer.QuadIndexArray(capacity)[k] < |Layers(groups)[i].vertices|
  {
    var layers := Layers(groups);
    LayersAreNonEmpty(groups);
    QuadIndexBuffer.DrawnIndicesInRange(layers[i].quadCount, capacity);
  }

  /** `QuadsRenderer`: the prepared layers and the shared index buffer. */
  class QuadsRenderer<M> {
    var layers: seq<QuadsLayer<M>>
    const indexBuffer: QuadIndexBuffer.QuadIndexBuffer

    ghost predicate Valid()
      reads this, indexBuffer
    {
      indexBuffer.Valid()
    }

    /** `new`: no layers and an empty index buffer. */
    constructor ()
      ensures Valid() && layers == [] && fresh(indexBuffer)
    {
      layers := [];
      indexBuffer := new QuadIndexBuffer.QuadIndexBuffer();
    }

    /** `prepare`: replaces the layers by those of the groups that hold quads and grows the
        index buffer to the largest layer. */
    method Prepare(groups: seq<(M, seq<Shape>)>)
      requires Valid()
      modifies this, indexBuffer
      ensures Valid()
      ensures layers == Layers(groups)
      ensures indexBuffer.Quads() >= MaxQuadCount(layers)
    {
      layers := [];
      var maxQuads := 0;
      for g := 0 to |groups|
        invariant layers == Layers(groups[..g])
        invariant maxQuads == MaxQuadCount(layers)
        invariant indexBuffer.Valid()
      {
        assert groups[..g + 1][..g] == groups[..g];
        var layer := PrepareQuads(groups[g].0, groups[g].1);
        if layer.Some? {
          ghost var before := layers;
          maxQuads := if maxQuads < layer.value.quadCount then layer.value.quadCount else maxQuads;
          layers := layers + [layer.value];
          assert layers[..|layers| - 1] == before;
        }
      }
      assert groups[..|groups|] == groups;
      indexBuffer.EnsureCanIndexNumQuads(maxQuads);
    }
  }
}
