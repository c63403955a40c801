/** renderer/src/glyph/glyph_param.rs: how a glyph's class chooses its rasterization. */
module GlyphParam {
  /** `GlyphClass`; the floating-point payloads of the variants are not part of this model. */
  datatype GlyphClass = Zoomed | PixelPerfect | Distorted

  /** `SwashRasterizationParam`. */
  datatype SwashRasterizationParam = SwashRasterizationParam(hinted: bool)

  /** `GlyphRasterizationParam`. */
  datatype GlyphRasterizationParam = GlyphRasterizationParam(preferSdf: bool, swash: SwashRasterizationParam)

  /** `From<GlyphClass>`: only distorted glyphs prefer a signed distance field; hinting is
      always on. */
  function FromClass(c: GlyphClass): (r: GlyphRasterizationParam)
    ensures r.preferSdf <==> c.Distorted?
    ensures r.swash.hinted
  {
    match c
    case Zoomed | PixelPerfect =>
      GlyphRasterizationParam(false, SwashRasterizationParam(true))
    case Distorted =>
      GlyphRasterizationParam(true, SwashRasterizationParam(true))
  }

  /** Two classes give the same parameters exactly when both or neither are distorted,
      so zoomed and pixel-perfect glyphs share their cache entries. */
  lemma FromClassAgrees(a: GlyphClass, b: GlyphClass)
    ensures FromClass(a) == FromClass(b) <==> (a.Distorted? <==> b.Distorted?)
  {
  }
}
