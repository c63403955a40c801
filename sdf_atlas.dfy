/** renderer/src/text_layer/sdf_atlas.rs: the instance of one glyph drawn from the signed
    distance field atlas and its four vertices. */
module SdfAtlas {
  import opened Geometry

  /** `Instance`: the glyph's rectangle in the atlas (in atlas pixels), the four corners of
      its quad and its color. */
  datatype Instance = Instance(atlasRect: IRect, vertices: Quad4<Vector3>, color: Color)

  /** `Vertex`: a position, its texture coordinate and a color. */
  datatype Vertex = Vertex(position: Vector3, texCoords: (real, real), color: Color)

  /** `to_vertices`: each corner of the quad keeps its position and gets the matching corner
      of the atlas rectangle as its (unnormalized) texture coordinate and the instance's
      color. */
  function ToVertices(instance: Instance): (r: Quad4<Vertex>)
    ensures forall k :: 0 <= k < 4 ==>
      r.Seq()[k] == Vertex(instance.vertices.Seq()[k], Uv(Corner(instance.atlasRect, k)), instance.color)
  {
    var rect := instance.atlasRect;
    var (ltx, lty) := (rect.min.x as real, rect.min.y as real);
    var (rbx, rby) := (rect.max.x as real, rect.max.y as real);
    var v := instance.vertices;
    Quad4(Vertex(v.v0, (ltx, lty), instance.color), Vertex(v.v1, (ltx, rby), instance.color),
          Vertex(v.v2, (rbx, rby), instance.color), Vertex(v.v3, (rbx, lty), instance.color))
  }

  /** The texture coordinates are atlas pixels, not normalized: the quad's diagonal spans
      exactly the atlas rectangle's width and height. */
  lemma UvSpansAtlasRect(instance: Instance)
    ensures var r := ToVertices(instance);
      r.v2.texCoords.0 - r.v0.texCoords.0 == (instance.atlasRect.max.x - instance.atlasRect.min.x) as real &&
      r.v2.texCoords.1 - r.v0.texCoords.1 == (instance.atlasRect.max.y - instance.atlasRect.min.y) as real
  {
    assert ToVertices(instance).Seq()[0] == ToVertices(instance).v0;
    assert ToVertices(instance).Seq()[2] == ToVertices(instance).v2;
  }
}
