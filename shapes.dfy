/** shapes/src/shapes.rs: the glyph runs of the shapes crate. */
module Shapes {
  import opened Geometry
  import Label

  /** `GlyphRunMetrics`; the `u32` fields are naturals. */
  datatype GlyphRunMetrics = GlyphRunMetrics(maxAscent: nat, maxDescent: nat, width: nat)

  /** `PositionedGlyph`: a glyph's cache key, the left/top of its hitbox and the hitbox's
      (fractional) width; `PositionedGlyph::new` is this constructor. */
  datatype PositionedGlyph = PositionedGlyph(key: CacheKey, hitboxPos: (int, int), hitboxWidth: real)

  /** `GlyphRun`; `GlyphRun::new` is this constructor. */
  datatype GlyphRun = GlyphRun(metrics: GlyphRunMetrics, textColor: Color, glyphs: seq<PositionedGlyph>)

  /** `Shape::GlyphRun`: a run with its (abstract) model matrix and local translation. */
  datatype Shape<!Matrix> = GlyphRunShape(modelMatrix: Matrix, translation: Vector3, run: GlyphRun)

  /** `GlyphRunMetrics::size`: the run's size in font-size pixels, its width and its height
      from the highest ascent to the lowest descent. */
  function Size(m: GlyphRunMetrics): (r: (nat, nat))
    ensures r.0 == m.width
    ensures r.1 - m.maxAscent == m.maxDescent
  {
    (m.width, m.maxAscent + m.maxDescent)
  }

  /** `PositionedGlyph::pixel_bounds_at`: the unit square of the pixel at `offset` from the
      hitbox's top left corner. */
  function PixelBoundsAt(glyph: PositionedGlyph, offset: (nat, nat)): (r: Bounds)
    ensures r.min == IPoint(glyph.hitboxPos.0 + offset.0, glyph.hitboxPos.1 + offset.1)
    ensures r.max == IPoint(r.min.x + 1, r.min.y + 1)
  {
    var x := glyph.hitboxPos.0 + offset.0;
    var y := glyph.hitboxPos.1 + offset.1;
    Bounds(IPoint(x, y), IPoint(x + 1, y + 1))
  }

  /** The shapes crate measures and rasterizes glyphs the way labels do: the same size and
      the same pixel squares for the same data. */
  lemma AgreesWithLabel(m: GlyphRunMetrics, glyph: PositionedGlyph, offset: (nat, nat))
    ensures Size(m) == Label.Size(Label.LabelMetrics(m.maxAscent, m.maxDescent, m.width))
    ensures PixelBoundsAt(glyph, offset)
         == Label.PixelBoundsAt(Label.PositionedGlyph(glyph.key, glyph.hitboxPos, glyph.hitboxWidth), offset)
  {
  }
}
