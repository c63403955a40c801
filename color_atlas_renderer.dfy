/** renderer/src/text_layer/color_atlas/renderer.rs: batching the glyphs of the color atlas
    and the number of indices drawn for a batch. */
module ColorAtlasRenderer {
  import opened Wrappers
  import opened Geometry
  import ColorAtlas
  import AtlasRenderer
  import QuadIndexBuffer

  /** `batch`: no batch for no instances; otherwise each instance's four vertices, with its
      atlas rectangle's corners as texture coordinates, and one quad per instance. */
  method Batch(instances: seq<ColorAtlas.Instance>) returns (r: Option<AtlasRenderer.QuadBatch<ColorAtlas.TextureVertex>>)
    ensures r.None? <==> |instances| == 0
    ensures r.Some? ==> r.value.quadCount == |instances| && |r.value.vertices| == 4 * |instances|
    ensures r.Some? ==> forall q, k :: 0 <= q < |instances| && 0 <= k < 4 ==>
      r.value.vertices[4 * q + k] == ColorAtlas.TextureVertex(instances[q].vertices.Seq()[k],
        Uv(Corner(instances[q].atlasRect, k)))
  {
    r := AtlasRenderer.Batch(instances, ColorAtlas.ToVertices);
    if r.Some? {
      forall q, k | 0 <= q < |instances| && 0 <= k < 4
        ensures r.value.vertices[4 * q + k] == ColorAtlas.TextureVertex(instances[q].vertices.Seq()[k],
          Uv(Corner(instances[q].atlasRect, k)))
      {
        AtlasRenderer.VerticesAt(instances, ColorAtlas.ToVertices, q, k);
      }
    }
  }

  /** The number of indices `render` draws for a batch. */
  function IndexCount<V>(batch: AtlasRenderer.QuadBatch<V>): nat
  {
    batch.quadCount * QuadIndexBuffer.IndicesPerQuad
  }

  /** `render` draws six indices per quad of the batch, and with an index buffer that can
      index the batch's quads (below 2^14 quads) every drawn index addresses a vertex of the
      batch. */
  lemma RenderAddressesBatch<V>(batch: AtlasRenderer.QuadBatch<V>, capacity: nat)
    requires |batch.vertices| == 4 * batch.quadCount
    requires batch.quadCount <= capacity && batch.quadCount <= 0x4000
    ensures IndexCount(batch) <= |QuadIndexBuffer.QuadIndexArray(capacity)|
    ensures forall k :: 0 <= k < IndexCount(batch) ==>
      0 <= QuadIndexBuffer.QuadIndexArray(capacity)[k] < |batch.vertices|
  {
    QuadIndexBuffer.DrawnIndicesInRange(batch.quadCount, capacity);
  }
}
