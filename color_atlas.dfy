/** renderer/src/text_layer/color_atlas.rs: the instance of one glyph drawn from the color
    atlas and its four vertices. */
module ColorAtlas {
  import opened Geometry

  /** `Instance`: the glyph's rectangle in the atlas (in atlas pixels) and the four corners
      of its quad. */
  datatype Instance = Instance(atlasRect: IRect, vertices: Quad4<Vector3>)

  /** `TextureVertex`: a position and its texture coordinate. */
  datatype TextureVertex = TextureVertex(position: Vector3, texCoords: (real, real))

  /** `to_vertices`: each corner of the quad keeps its position and gets the matching corner
      of the atlas rectangle as its (unnormalized) texture coordinate. */
  function ToVertices(instance: Instance): (r: Quad4<TextureVertex>)
    ensures forall k :: 0 <= k < 4 ==>
      r.Seq()[k] == TextureVertex(instance.vertices.Seq()[k], Uv(Corner(instance.atlasRect, k)))
  {
    var rect := instance.atlasRect;
    var (ltx, lty) := (rect.min.x as real, rect.min.y as real);
    var (rbx, rby) := (rect.max.x as real, rect.max.y as real);
    var v := instance.vertices;
    Quad4(TextureVertex(v.v0, (ltx, lty)), TextureVertex(v.v1, (ltx, rby)),
          TextureVertex(v.v2, (rbx, rby)), TextureVertex(v.v3, (rbx, lty)))
  }

  /** The texture coordinates are atlas pixels, not normalized: the quad's diagonal spans
      exactly the atlas rectangle's width and height. */
  lemma UvSpansAtlasRect(instance: Instance)
    ensures var r := ToVertices(instance);
      r.v2.texCoords.0 - r.v0.texCoords.0 == (instance.atlasRect.max.x - instance.atlasRect.min.x) as real &&
      r.v2.texCoords.1 - r.v0.texCoords.1 == (instance.atlasRect.max.y - instance.atlasRect.min.y) as real
  {
    assert ToVertices(instance).Seq()[0] == ToVertices(instance).v0;
    assert ToVertices(instance).Seq()[2] == ToVertices(instance).v2;
  }
}
