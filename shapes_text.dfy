/** shapes/src/text.rs: glyph runs and the placement of a rasterized glyph inside its run. */
module ShapesText {
  import opened Geometry
  import opened SwashImage

  /** `GlyphRunMetrics`; the `u32` fields are naturals. */
  datatype GlyphRunMetrics = GlyphRunMetrics(maxAscent: nat, maxDescent: nat, width: nat)

  /** `TextWeight(u16)`. */
  datatype TextWeight = TextWeight(weight: nat)

  const Thin := TextWeight(100)
  const ExtraLight := TextWeight(200)
  const Light := TextWeight(300)
  const Normal := TextWeight(400)
  const Medium := TextWeight(500)
  const SemiBold := TextWeight(600)
  const Bold := TextWeight(700)
  const ExtraBold := TextWeight(800)
  const Black := TextWeight(900)

  /** The named weights from THIN to BLACK. */
  const NamedWeights := [Thin, ExtraLight, Light, Normal, Medium, SemiBold, Bold, ExtraBold, Black]

  /** The named weights run from 100 to 900 in steps of 100. */
  lemma NamedWeightsAreHundreds()
    ensures forall k :: 0 <= k < |NamedWeights| ==> NamedWeights[k].weight == 100 * (k + 1)
    ensures Normal.weight == 400 && Bold.weight == 700
  {
  }

  /** `RunGlyph`: the left/top of the glyph's advance box and its cache key. */
  datatype RunGlyph = RunGlyph(pos: (int, int), key: CacheKey)

  /** `GlyphRun`; `GlyphRun::new` is this constructor. */
  datatype GlyphRun = GlyphRun(translation: Vector3, metrics: GlyphRunMetrics, textColor: Color,
                               textWeight: TextWeight, glyphs: seq<RunGlyph>)

  /** `GlyphRunMetrics::size`: the run's width and its height from the highest ascent to the
      lowest descent. */
  function Size(m: GlyphRunMetrics): (r: (nat, nat))
    ensures r.0 == m.width
    ensures r.1 - m.maxAscent == m.maxDescent
  {
    (m.width, m.maxAscent + m.maxDescent)
  }

  /** `GlyphRun::place_glyph`: the glyph's pixel rectangle in run coordinates; the image
      hangs `placement.top` above the baseline, which is `max_ascent` below the glyph box's
      top. */
  function PlaceGlyph(run: GlyphRun, glyph: RunGlyph, placement: Placement): (r: IRect)
    ensures r.min.x == glyph.pos.0 + placement.left
    ensures r.min.y == glyph.pos.1 + run.metrics.maxAscent - placement.top
    ensures r.max.x - r.min.x == placement.width
    ensures r.max.y - r.min.y == placement.height
  {
    var left := glyph.pos.0 + placement.left;
    var top := glyph.pos.1 + run.metrics.maxAscent - placement.top;
    IRect(IPoint(left, top), IPoint(left + placement.width, top + placement.height))
  }

  /** A glyph on the run's line (`pos.1 == 0`) whose image stays within the run's ascent and
      descent lies vertically inside the run's box. */
  lemma PlacedGlyphInsideRun(run: GlyphRun, glyph: RunGlyph, placement: Placement)
    requires glyph.pos.1 == 0
    requires placement.top <= run.metrics.maxAscent
    requires placement.height - placement.top <= run.metrics.maxDescent
    ensures 0 <= PlaceGlyph(run, glyph, placement).min.y
    ensures PlaceGlyph(run, glyph, placement).max.y <= Size(run.metrics).1
  {
  }

  /** Moving a glyph's box moves its placed rectangle by the same amount. */
  lemma PlaceGlyphFollowsPosition(run: GlyphRun, glyph: RunGlyph, placement: Placement, dx: int, dy: int)
    ensures var moved := RunGlyph((glyph.pos.0 + dx, glyph.pos.1 + dy), glyph.key);
      var a := PlaceGlyph(run, glyph, placement);
      var b := PlaceGlyph(run, moved, placement);
      b.min == IPoint(a.min.x + dx, a.min.y + dy) && b.max == IPoint(a.max.x + dx, a.max.y + dy)
  {
  }

  /** `RunGlyph::pixel_bounds_at`: the unit square of the pixel at `offset` from the glyph's
      box; `u32` offsets are naturals. */
  function PixelBoundsAt(glyph: RunGlyph, offset: (nat, nat)): (r: Bounds)
    ensures r.min == IPoint(glyph.pos.0 + offset.0, glyph.pos.1 + offset.1)
    ensures r.max == IPoint(r.min.x + 1, r.min.y + 1)
  {
    var x := glyph.pos.0 + offset.0;
    var y := glyph.pos.1 + offset.1;
    Bounds(IPoint(x, y), IPoint(x + 1, y + 1))
  }

  /** Neighbouring pixels' squares share an edge: the squares tile the glyph's box. */
  lemma PixelBoundsTile(glyph: RunGlyph, offset: (nat, nat))
    ensures PixelBoundsAt(glyph, (offset.0 + 1, offset.1)).min.x == PixelBoundsAt(glyph, offset).max.x
    ensures PixelBoundsAt(glyph, (offset.0, offset.1 + 1)).min.y == PixelBoundsAt(glyph, offset).max.y
  {
  }
}
