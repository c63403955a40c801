/** text/src/label.rs: the integer geometry of a label's glyphs, the texture quad of a glyph
    and the images uploaded for it (padded, or a signed distance field). */
module Label {
  import opened Wrappers
  import opened Geometry
  import opened SwashImage
  import GlyphRasterization
  import DistanceFieldGen

  /** `LabelMetrics`; the `u32` fields are naturals. */
  datatype LabelMetrics = LabelMetrics(maxAscent: nat, maxDescent: nat, width: nat)

  /** `LabelMetrics::size`: the label's width, and its height from the highest ascent to the
      lowest descent. */
  function Size(m: LabelMetrics): (r: (nat, nat))
    ensures r.0 == m.width
    ensures r.1 - m.maxAscent == m.maxDescent
  {
    (m.width, m.maxAscent + m.maxDescent)
  }

  /** `PositionedGlyph`: the glyph's cache key, the left/top of its hitbox and the hitbox's
      (fractional) width; `PositionedGlyph::new` is this constructor. */
  datatype PositionedGlyph = PositionedGlyph(cacheKey: CacheKey, hitboxPos: (int, int), hitboxWidth: real)

  /** `PositionedGlyph::pixel_bounds_at`: the unit square of the pixel at `offset` from the
      hitbox's top left corner. */
  function PixelBoundsAt(glyph: PositionedGlyph, offset: (nat, nat)): (r: Bounds)
    ensures r.min == IPoint(glyph.hitboxPos.0 + offset.0, glyph.hitboxPos.1 + offset.1)
    ensures r.max == IPoint(r.min.x + 1, r.min.y + 1)
  {
    var x := glyph.hitboxPos.0 + offset.0;
    var y := glyph.hitboxPos.1 + offset.1;
    Bounds(IPoint(x, y), IPoint(x + 1, y + 1))
  }

  /** The squares of horizontally and vertically neighbouring pixels share an edge. */
  lemma PixelBoundsTile(glyph: PositionedGlyph, offset: (nat, nat))
    ensures PixelBoundsAt(glyph, (offset.0 + 1, offset.1)).min.x == PixelBoundsAt(glyph, offset).max.x
    ensures PixelBoundsAt(glyph, (offset.0, offset.1 + 1)).min.y == PixelBoundsAt(glyph, offset).max.y
  {
  }

  /** `place_glyph`: the rectangle of a glyph's image in label coordinates; the image hangs
      `placement.top` above the baseline, which is `max_ascent` below the hitbox's top. */
  function PlaceGlyph(maxAscent: nat, hitboxPos: (int, int), placement: Placement): (r: IRect)
    ensures r.min.x == hitboxPos.0 + placement.left
    ensures r.min.y == hitboxPos.1 + maxAscent - placement.top
    ensures r.max.x - r.min.x == placement.width
    ensures r.max.y - r.min.y == placement.height
  {
    var left := hitboxPos.0 + placement.left;
    var top := hitboxPos.1 + maxAscent - placement.top;
    IRect(IPoint(left, top), IPoint(left + placement.width, top + placement.height))
  }

  /** A glyph on the label's first line whose image stays within the ascent and descent lies
      vertically inside the label. */
  lemma PlacedGlyphInsideLabel(m: LabelMetrics, hitboxPos: (int, int), placement: Placement)
    requires hitboxPos.1 == 0
    requires placement.top <= m.maxAscent
    requires placement.height - placement.top <= m.maxDescent
    ensures 0 <= PlaceGlyph(m.maxAscent, hitboxPos, placement).min.y
    ensures PlaceGlyph(m.maxAscent, hitboxPos, placement).max.y <= Size(m).1
  {
  }

  /** Padding an image keeps its pixels where they were: the padded image's rectangle is the
      original one grown by the padding on every side. */
  lemma PlaceGrownGlyph(maxAscent: nat, hitboxPos: (int, int), placement: Placement, pad: nat)
    ensures var a := PlaceGlyph(maxAscent, hitboxPos, placement);
      var b := PlaceGlyph(maxAscent, hitboxPos, GlyphRasterization.Grown(placement, pad));
      b.min == IPoint(a.min.x - pad, a.min.y - pad) && b.max == IPoint(a.max.x + pad, a.max.y + pad)
  {
  }

  /** `TextureVertex`: a position and the texture coordinate sampled there. */
  datatype TextureVertex = TextureVertex(position: Vector3, texCoords: (real, real))

  /** `glyph_to_texture_vertex`: the four corners of the rectangle, left top, left bottom,
      right bottom, right top, each carrying the texture's matching corner, in the plane
      `z = 0`. */
  function GlyphToTextureVertex(rect: (RPoint, RPoint)): (r: seq<TextureVertex>)
    ensures |r| == 4
    ensures forall k :: 0 <= k < 4 ==> r[k].position.z == 0.0
    ensures [r[0].texCoords, r[1].texCoords, r[2].texCoords, r[3].texCoords]
         == [(0.0, 0.0), (0.0, 1.0), (1.0, 1.0), (1.0, 0.0)]
    ensures forall k :: 0 <= k < 4 ==>
      r[k].position.x == (if r[k].texCoords.0 == 0.0 then rect.0.x else rect.1.x) &&
      r[k].position.y == (if r[k].texCoords.1 == 0.0 then rect.0.y else rect.1.y)
  {
    var (left, top, right, bottom) := (rect.0.x, rect.0.y, rect.1.x, rect.1.y);
    [ TextureVertex(Vector3(left, top, 0.0), (0.0, 0.0)),
      TextureVertex(Vector3(left, bottom, 0.0), (0.0, 1.0)),
      TextureVertex(Vector3(right, bottom, 0.0), (1.0, 1.0)),
      TextureVertex(Vector3(right, top, 0.0), (1.0, 0.0)) ]
  }

  /** `Point2<f32>`. */
  datatype RPoint = RPoint(x: real, y: real)

  /** The distance passes that turn the padded alpha values and their edge map into the
      field (not part of this model). */
  type Transform = (seq<Byte>, seq<seq<Byte>>) -> seq<Byte>

  /** `render_sdf`: pads the image by one pixel, lets the generator mark its edges and fill a
      field of `(w + 2 pad) x (h + 2 pad)` and returns that field placed `pad` pixels
      further out on every side. The generator always succeeds, so the result is never
      `None`; it panics only where padding does. */
  method RenderSdf(image: Image, transform: Transform) returns (r: Outcome<Option<Image>>, edges: seq<seq<Byte>>)
    ensures r.Panics? <==> |image.data| < image.placement.height * image.placement.width
    ensures r.Returns? ==>
      var w := image.placement.width;
      var h := image.placement.height;
      r.value.Some? &&
      r.value.value == Image(GlyphRasterization.Grown(image.placement, DistanceFieldGen.DistanceFieldPad),
                             image.content, transform(Padded(image.data, w, h), edges)) &&
      |edges| == h + 2 && (forall j :: 0 <= j < h + 2 ==> |edges[j]| == w + 2) &&
      |Padded(image.data, w, h)| == (w + 2) * (h + 2) &&
      forall j, i :: 0 <= j < h + 2 && 0 <= i < w + 2 ==>
        edges[j][i] == DistanceFieldGen.EdgeByte(
          DistanceFieldGen.IsEdgePixel(Padded(image.data, w, h), w + 2, h + 2, i, j))
  {
    var w := image.placement.width;
    var h := image.placement.height;
    edges := [];
    var padded := GlyphRasterization.PadImage(image);
    if padded.Panics? {
      return Panics, edges;
    }
    PaddedLength(image.data, w, h);
    var pad := DistanceFieldGen.DistanceFieldPad;
    var distanceField := Zeros((w + 2 * pad) * (h + 2 * pad));
    var sdfOk;
    sdfOk, edges := DistanceFieldGen.GenerateDistanceField(distanceField, padded.value.data, w, h);
    if sdfOk {
      return Returns(Some(Image(GlyphRasterization.Grown(image.placement, pad), image.content, transform(padded.value.data, edges)))), edges;
    }
    return Returns(None), edges;
  }

  /** How a glyph's on-screen pixel relates to its rendered pixel (`GlyphClassifier`, whose
      floating-point classification is not part of this model). */
  datatype GlyphClassifier = PixelPerfect(alignment: (bool, bool)) | Zoomed(scale: real) | Distorted

  /** The pipeline a glyph texture is drawn with. */
  datatype Pipeline = Flat | Sdf

  /** `image_to_texture_with_classification`, up to the texture upload: the placement and
      the pipeline of the texture made for the glyph. Undistorted glyphs get the padded
      image and the flat pipeline, distorted ones the distance field and the SDF pipeline;
      the "Failed to generate SDF image" error cannot happen. */
  method ImageToTextureWithClassification(image: Image, classification: GlyphClassifier, transform: Transform)
    returns (r: Outcome<Result<(Placement, Pipeline), string>>)
    ensures r.Panics? <==> |image.data| < image.placement.height * image.placement.width
    ensures r.Returns? ==> r.value.Ok?
    ensures r.Returns? && !classification.Distorted? ==>
      r.value.value == (GlyphRasterization.Grown(image.placement, 1), Flat)
    ensures r.Returns? && classification.Distorted? ==>
      r.value.value == (GlyphRasterization.Grown(image.placement, DistanceFieldGen.DistanceFieldPad), Sdf)
  {
    if !classification.Distorted? {
      var padded := GlyphRasterization.PadImage(image);
      if padded.Panics? {
        return Panics;
      }
      return Returns(Ok((padded.value.placement, Flat)));
    }
    var sdf, _ := RenderSdf(image, transform);
    if sdf.Panics? {
      return Panics;
    }
    if sdf.value.None? {
      return Returns(Err("Failed to generate SDF image"));
    }
    return Returns(Ok((sdf.value.value.placement, Sdf)));
  }
}
