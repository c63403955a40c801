/** renderer/src/glyph/glyph_rasterization.rs: padding a rasterized glyph as a texture, or
    turning it into a signed distance field. */
module GlyphRasterization {
  import opened Wrappers
  import opened SwashImage
  import opened Arith

  /** `DISTANCE_FIELD_PAD` of the distance field generator. */
  const DistanceFieldPad: nat := 4

  /** `vec![0; a + b]` is two zero runs. */
  lemma ZerosSplit(a: nat, b: nat)
    ensures Zeros(a + b) == Zeros(a) + Zeros(b)
  {
  }

  /** The buffer after `line` rows have been copied: the zero top row, the framed rows so
      far, and zero rows for the rest. */
  function PartlyPadded(image: seq<Byte>, w: nat, h: nat, line: nat): seq<Byte>
    requires line <= h && Mul(line, w) <= |image|
  {
    Zeros(w + 2) + Framed(image, w, line) + Zeros(Mul(h + 1 - line, w + 2))
  }

  /** Before any row is copied the buffer is all zeros. */
  lemma PartlyPaddedStart(image: seq<Byte>, w: nat, h: nat)
    ensures PartlyPadded(image, w, h, 0) == Zeros((w + 2) * (h + 2))
  {
    ZerosSplit(w + 2, Mul(h + 1, w + 2));
    MulIsProduct(h + 2, w + 2);
  }

  /** After the last row is copied the buffer is the padded image. */
  lemma PartlyPaddedEnd(image: seq<Byte>, w: nat, h: nat)
    requires h * w <= |image|
    ensures Mul(h, w) <= |image|
    ensures PartlyPadded(image, w, h, h) == Padded(image, w, h)
  {
    MulIsProduct(h, w);
    assert Mul(1, w + 2) == w + 2;
  }

  /** The copy of one row as a statement about sequences alone: writing `row` just past
      the first byte of a zero row turns it into the row framed by zeros. */
  lemma CopyIntoZeros(p: seq<Byte>, q: seq<Byte>, a: seq<Byte>, b: seq<Byte>, row: seq<Byte>, d: nat, e: nat)
    requires p == a + Zeros(|row| + 2) + b && q == a + ([0] + row + [0]) + b
    requires d == |a| + 1 && e == d + |row|
    ensures d <= e <= |p|
    ensures p[..d] + row + p[e..] == q
  {
    ZerosSplit(1, |row| + 1);
    ZerosSplit(|row|, 1);
    assert p[..d] == a + [0];
    assert p[e..] == [0] + b;
  }

  /** Before row `line` is copied, its place holds a zero row. */
  lemma PartlyPaddedBefore(image: seq<Byte>, w: nat, h: nat, line: nat)
    requires line < h && Mul(line, w) + w <= |image|
    ensures PartlyPadded(image, w, h, line) ==
      (Zeros(w + 2) + Framed(image, w, line)) + Zeros(w + 2) + Zeros(Mul(h - line, w + 2))
  {
    var m := w + 2;
    assert Mul(h + 1 - line, m) == m + Mul(h - line, m);
    ZerosSplit(m, Mul(h - line, m));
  }

  /** After row `line` is copied, its place holds the framed source row. */
  lemma PartlyPaddedAfter(image: seq<Byte>, w: nat, h: nat, line: nat)
    requires line < h && Mul(line, w) + w <= |image|
    ensures PartlyPadded(image, w, h, line + 1) ==
      (Zeros(w + 2) + Framed(image, w, line)) + FramedRow(image, w, line) + Zeros(Mul(h - line, w + 2))
  {
    assert Framed(image, w, line + 1) == Framed(image, w, line) + FramedRow(image, w, line);
  }

  /** The buffers before and after the copy of row `line`: the same bytes around a zero row
      that becomes the framed source row. */
  lemma PartlyPaddedAround(image: seq<Byte>, w: nat, h: nat, line: nat) returns (a: seq<Byte>, b: seq<Byte>)
    requires line < h && Mul(line, w) + w <= |image|
    ensures |a| == Mul(line + 1, w + 2)
    ensures PartlyPadded(image, w, h, line) == a + Zeros(w + 2) + b
    ensures PartlyPadded(image, w, h, line + 1) == a + ([0] + image[Mul(line, w)..Mul(line, w) + w] + [0]) + b
  {
    FramedRowSlice(image, w, line);
    FramedLength(image, w, line);
    PartlyPaddedBefore(image, w, h, line);
    PartlyPaddedAfter(image, w, h, line);
    a, b := Zeros(w + 2) + Framed(image, w, line), Zeros(Mul(h - line, w + 2));
  }

  /** Copying row `line` (which starts at `src` in the image) to `dest` extends the padded
      prefix by one framed row. */
  lemma CopyRow(image: seq<Byte>, w: nat, h: nat, line: nat, src: nat, dest: nat)
    requires line < h && Mul(line, w) + w <= |image|
    requires src == Mul(line, w) && dest == Mul(line + 1, w + 2) + 1
    ensures var p := PartlyPadded(image, w, h, line);
      dest + w <= |p| &&
      p[..dest] + image[src..src + w] + p[dest + w..] == PartlyPadded(image, w, h, line + 1)
  {
    var a, b := PartlyPaddedAround(image, w, h, line);
    var row := image[src..src + w];
    CopyIntoZeros(PartlyPadded(image, w, h, line), PartlyPadded(image, w, h, line + 1), a, b, row, dest, dest + w);
  }

  /** One iteration of `pad_image_data`: copies row `line` of the image to offset
      `(line + 1) * (w + 2) + 1` of the buffer; `None` is the slice panic when the image
      ends before the row does. The products are written as repeated addition. */
  method CopyLine(padded: seq<Byte>, image: seq<Byte>, w: nat, h: nat, line: nat) returns (r: Option<seq<Byte>>)
    requires line < h && Mul(line, w) <= |image|
    requires padded == PartlyPadded(image, w, h, line)
    ensures r.None? <==> |image| < Mul(line + 1, w)
    ensures r.None? ==> |image| < Mul(h, w)
    ensures r.Some? ==> Mul(line + 1, w) <= |image| && r.value == PartlyPadded(image, w, h, line + 1)
  {
    var rowOffset := w + 2;
    var destOffset := (line + 1) * rowOffset + 1;
    var srcOffset := line * w;
    MulIsProduct(line, w);
    MulIsProduct(line + 1, w + 2);
    if srcOffset + w > |image| {
      MulRowWithin(line, h, w);
      return None;
    }
    CopyRow(image, w, h, line, srcOffset, destOffset);
    return Some(padded[..destOffset] + image[srcOffset..srcOffset + w] + padded[destOffset + w..]);
  }

  /** The row loop of `pad_image_data` on a zeroed buffer, with the products written as
      repeated addition. */
  method CopyLines(padded0: seq<Byte>, image: seq<Byte>, w: nat, h: nat) returns (r: Option<seq<Byte>>)
    requires padded0 == PartlyPadded(image, w, h, 0)
    ensures r.None? <==> |image| < Mul(h, w)
    ensures r.Some? ==> Mul(h, w) <= |image| && r.value == PartlyPadded(image, w, h, h)
  {
    var padded := padded0;
    var line := 0;
    while line < h
      invariant line <= h
      invariant Mul(line, w) <= |image|
      invariant padded == PartlyPadded(image, w, h, line)
    {
      var copied := CopyLine(padded, image, w, h, line);
      if copied.None? {
        return None;
      }
      padded := copied.value;
      line := line + 1;
    }
    return Some(padded);
  }

  /** `pad_image_data`: copies the `w x h` image row by row into a zeroed
      `(w + 2) x (h + 2)` buffer; `None` is the slice panic when the image holds fewer than
      `w * h` bytes. */
  method PadImageData(image: seq<Byte>, w: nat, h: nat) returns (r: Option<seq<Byte>>)
    ensures r.None? <==> |image| < h * w
    ensures r.Some? ==> r.value == Padded(image, w, h)
  {
    var padded := Zeros((w + 2) * (h + 2));
    PartlyPaddedStart(image, w, h);
    r := CopyLines(padded, image, w, h);
    MulIsProduct(h, w);
    if r.Some? {
      PartlyPaddedEnd(image, w, h);
    }
  }

  /** The placement of an image padded by `pad` pixels on every side. */
  function Grown(p: Placement, pad: nat): (r: Placement)
    ensures r.left == p.left - pad && r.top == p.top + pad
    ensures r.width == p.width + 2 * pad && r.height == p.height + 2 * pad
  {
    Placement(p.left - pad, p.top + pad, p.width + 2 * pad, p.height + 2 * pad)
  }

  /** Growing keeps every pixel where it was: pixel `(x, y)` of the original is pixel
      `(x + pad, y + pad)` of the grown image, and both sit at the same offset from the
      pen position (`left + x` across, `y - top` down from the baseline). */
  lemma GrownKeepsPixelsInPlace(p: Placement, pad: nat, x: int, y: int)
    ensures Grown(p, pad).left + (x + pad) == p.left + x
    ensures (y + pad) - Grown(p, pad).top == y - p.top
  {
  }

  /** `pad_image`: the image with a one-pixel zero border; it panics where
      `pad_image_data` does. */
  method PadImage(image: Image) returns (r: Outcome<Image>)
    ensures r.Panics? <==> |image.data| < image.placement.height * image.placement.width
    ensures r.Returns? ==> r.value.placement == Grown(image.placement, 1)
    ensures r.Returns? ==> r.value.content == image.content
    ensures r.Returns? ==> r.value.data == Padded(image.data, image.placement.width, image.placement.height)
  {
    var data := PadImageData(image.data, image.placement.width, image.placement.height);
    if data.None? {
      return Panics;
    }
    r := Returns(Image(Grown(image.placement, 1), image.content, data.value));
  }

  /** The distance field generator (`generate_distance_field_from_image` of the renderer's
      copy, not part of this model): given the zeroed output buffer, the padded input and
      the unpadded size, the success flag and the buffer's new contents. */
  type Generator = (seq<Byte>, seq<Byte>, nat, nat) -> (bool, seq<Byte>)

  /** `render_sdf`: pads the image for the generator, lets it fill a zeroed
      `(w + 2 pad) x (h + 2 pad)` buffer and, when it succeeds, returns that field placed
      `pad` pixels further out on every side; `None` when it fails. */
  method RenderSdf(image: Image, generate: Generator) returns (r: Outcome<Option<Image>>)
    ensures r.Panics? <==> |image.data| < image.placement.height * image.placement.width
    ensures r.Returns? ==>
      var w := image.placement.width;
      var h := image.placement.height;
      var out := generate(Zeros((w + 2 * DistanceFieldPad) * (h + 2 * DistanceFieldPad)), Padded(image.data, w, h), w, h);
      (r.value.Some? <==> out.0) &&
      (r.value.Some? ==> r.value.value == Image(Grown(image.placement, DistanceFieldPad), image.content, out.1))
  {
    var w := image.placement.width;
    var h := image.placement.height;
    var padded := PadImage(image);
    if padded.Panics? {
      return Panics;
    }
    var pad := DistanceFieldPad;
    var distanceField := Zeros((w + 2 * pad) * (h + 2 * pad));
    var (sdfOk, field) := generate(distanceField, padded.value.data, w, h);
    if sdfOk {
      return Returns(Some(Image(Grown(image.placement, pad), image.content, field)));
    }
    return Returns(None);
  }

  /** `rasterize_padded_glyph`, given what `rasterize_glyph` produced for the key: nothing
      when rasterization failed, the distance field when the key asks for one, otherwise
      the image with a one-pixel border. */
  method RasterizePaddedGlyph(sdf: bool, withoutPadding: Option<Image>, generate: Generator)
    returns (r: Outcome<Option<Image>>)
    ensures withoutPadding.None? ==> r == Returns(None)
    ensures withoutPadding.Some? && sdf ==>
      var image := withoutPadding.value;
      (r.Panics? <==> |image.data| < image.placement.height * image.placement.width) &&
      (r.Returns? && r.value.Some? ==> r.value.value.placement == Grown(image.placement, DistanceFieldPad))
    ensures withoutPadding.Some? && !sdf ==>
      var image := withoutPadding.value;
      (r.Panics? <==> |image.data| < image.placement.height * image.placement.width) &&
      (r.Returns? ==> r.value == Some(Image(Grown(image.placement, 1), image.content,
        Padded(image.data, image.placement.width, image.placement.height))))
  {
    if withoutPadding.None? {
      return Returns(None);
    }
    if sdf {
      r := RenderSdf(withoutPadding.value, generate);
      return;
    }
    var padded := PadImage(withoutPadding.value);
    if padded.Panics? {
      return Panics;
    }
    return Returns(Some(padded.value));
  }
}
