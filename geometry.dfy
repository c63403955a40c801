/** The value types of the geometry crates that the core passes around. Floating-point
    coordinates (`f32`/`f64`) are reals; the float arithmetic of those crates is not part of
    this model. */
module Geometry {
  /** `IVec2` / `Point2<i32>`. */
  datatype IPoint = IPoint(x: int, y: int)

  /** The `(left_top, right_bottom)` pair that glyph placement returns. */
  datatype IRect = IRect(min: IPoint, max: IPoint)

  /** `Vector3`. */
  datatype Vector3 = Vector3(x: real, y: real, z: real)

  /** `Vector3 + Vector3`. */
  function Add(a: Vector3, b: Vector3): (r: Vector3)
    ensures r.x - a.x == b.x && r.y - a.y == b.y && r.z - a.z == b.z
  {
    Vector3(a.x + b.x, a.y + b.y, a.z + b.z)
  }

  /** `Bounds`, at the integer coordinates the glyph code builds them from. */
  datatype Bounds = Bounds(min: IPoint, max: IPoint)

  /** `Color`; its channels are not inspected by the core. */
  type Color(==, !new)

  /** cosmic-text's `CacheKey` that identifies a rasterized glyph. */
  type CacheKey(==, !new)

  /** The four corners of a quad (`[T; 4]`), in the order left top, left bottom, right
      bottom, right top. */
  datatype Quad4<T> = Quad4(v0: T, v1: T, v2: T, v3: T) {
    /** The corners as a sequence, `v0` first. */
    function Seq(): (r: seq<T>)
      ensures |r| == 4 && r[0] == v0 && r[1] == v1 && r[2] == v2 && r[3] == v3
    {
      [v0, v1, v2, v3]
    }
  }

  /** Corner `k` of an integer rectangle, in the quad order: left top, left bottom, right
      bottom, right top. */
  function Corner(r: IRect, k: nat): IPoint
    requires k < 4
  {
    IPoint(if k < 2 then r.min.x else r.max.x, if k == 1 || k == 2 then r.max.y else r.min.y)
  }

  /** An integer point as a texture coordinate (`as f32`). */
  function Uv(p: IPoint): (real, real)
  {
    (p.x as real, p.y as real)
  }
}
