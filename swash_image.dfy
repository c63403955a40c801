/** The rasterizer's image types (swash's `Placement`, `Content` and `Image`) and the
    one-pixel zero border that the glyph code adds to a mask image. */
module SwashImage {
  import opened Arith

  /** `u8`. */
  newtype Byte = x: int | 0 <= x < 256

  /** Where a glyph image sits relative to the pen position: `left`/`top` are `i32`,
      `width`/`height` are `u32`. */
  datatype Placement = Placement(left: int, top: int, width: nat, height: nat)

  /** What the pixels of an image mean. */
  datatype Content = Mask | SubpixelMask | Color

  /** A rasterized glyph. */
  datatype Image = Image(placement: Placement, content: Content, data: seq<Byte>)

  /** `vec![0u8; n]`. */
  function Zeros(n: nat): (r: seq<Byte>)
    ensures |r| == n
    ensures forall i :: 0 <= i < |r| ==> r[i] == 0
  {
    seq(n, _ => 0)
  }

  /** Row `r` of a `w`-wide image between two zeros. */
  function FramedRow(image: seq<Byte>, w: nat, r: nat): (s: seq<Byte>)
    requires Mul(r, w) + w <= |image|
    ensures |s| == w + 2
  {
    seq(w + 2, col => FramedCell(image, w, r, col))
  }

  /** The framed row is the source row's slice with a zero on each side. */
  lemma FramedRowSlice(image: seq<Byte>, w: nat, r: nat)
    requires Mul(r, w) + w <= |image|
    ensures FramedRow(image, w, r) == [0] + image[Mul(r, w)..Mul(r, w) + w] + [0]
  {
    var slice := image[Mul(r, w)..Mul(r, w) + w];
    assert forall col :: 1 <= col <= w ==> FramedRow(image, w, r)[col] == slice[col - 1];
  }

  /** The first `n` rows of a `w`-wide image, each between two zeros, end to end. */
  function Framed(image: seq<Byte>, w: nat, n: nat): seq<Byte>
    requires Mul(n, w) <= |image|
  {
    if n == 0 then []
    else
      MulRowWithin(n - 1, n, w);
      Framed(image, w, n - 1) + FramedRow(image, w, n - 1)
  }

  /** `n` framed rows are `n * (w + 2)` bytes. */
  lemma {:induction false} FramedLength(image: seq<Byte>, w: nat, n: nat)
    requires Mul(n, w) <= |image|
    ensures |Framed(image, w, n)| == Mul(n, w + 2)
  {
    if n > 0 {
      MulRowWithin(n - 1, n, w);
      FramedLength(image, w, n - 1);
    }
  }

  /** Byte `col` of framed source row `r`: the source pixel between the two zeros. */
  function FramedCell(image: seq<Byte>, w: nat, r: nat, col: int): Byte
    requires Mul(r, w) + w <= |image|
  {
    if 1 <= col <= w then image[Mul(r, w) + col - 1] else 0
  }

  /** Byte `col` of framed row `r` sits at `r * (w + 2) + col`. */
  lemma {:induction false} FramedAt(image: seq<Byte>, w: nat, n: nat, r: nat, col: nat)
    requires Mul(n, w) <= |image| && r < n && col < w + 2
    ensures Mul(r, w) + w <= |image|
    ensures Mul(r, w + 2) + col < |Framed(image, w, n)|
    ensures Framed(image, w, n)[Mul(r, w + 2) + col] == FramedCell(image, w, r, col)
  {
    MulRowWithin(n - 1, n, w);
    MulRowWithin(r, n, w);
    FramedLength(image, w, n - 1);
    if r < n - 1 {
      FramedAt(image, w, n - 1, r, col);
    }
  }

  /** The image with a one-pixel zero border: a zero row, the framed source rows, a zero
      row. */
  function Padded(image: seq<Byte>, w: nat, h: nat): seq<Byte>
    requires h * w <= |image|
  {
    MulIsProduct(h, w);
    Zeros(w + 2) + Framed(image, w, h) + Zeros(w + 2)
  }

  /** The byte at column `col` of row `row` of the padded `(w + 2) x (h + 2)` image: the
      source pixel `(col - 1, row - 1)` inside the border, zero on it. */
  function PaddedAt(image: seq<Byte>, w: nat, h: nat, row: nat, col: nat): Byte
    requires h * w <= |image|
  {
    if 1 <= row <= h then
      MulIsProduct(h, w);
      MulRowWithin(row - 1, h, w);
      FramedCell(image, w, row - 1, col)
    else 0
  }

  /** The padded image has `h + 2` rows of `w + 2` bytes. */
  lemma PaddedLength(image: seq<Byte>, w: nat, h: nat)
    requires h * w <= |image|
    ensures |Padded(image, w, h)| == Mul(h + 2, w + 2)
    ensures |Padded(image, w, h)| == (h + 2) * (w + 2)
  {
    MulIsProduct(h, w);
    FramedLength(image, w, h);
    MulIsProduct(h + 2, w + 2);
  }

  /** A byte of a run of bytes between two zero runs of length `m`. */
  lemma BetweenZerosAt(body: seq<Byte>, m: nat, k: nat)
    requires k < m + |body| + m
    ensures (Zeros(m) + body + Zeros(m))[k] == if m <= k < m + |body| then body[k - m] else 0
  {
  }

  /** Byte `col` of row `row` of the padded image, with the row offset as repeated addition. */
  lemma PaddedPointMul(image: seq<Byte>, w: nat, h: nat, row: nat, col: nat)
    requires h * w <= |image|
    requires row < h + 2 && col < w + 2
    ensures Mul(row, w + 2) + col < |Padded(image, w, h)|
    ensures Padded(image, w, h)[Mul(row, w + 2) + col] == PaddedAt(image, w, h, row, col)
  {
    MulIsProduct(h, w);
    var m := w + 2;
    FramedLength(image, w, h);
    MulRowWithin(row, h + 2, m);
    BetweenZerosAt(Framed(image, w, h), m, Mul(row, m) + col);
    if 1 <= row <= h {
      FramedAt(image, w, h, row - 1, col);
    } else if row == h + 1 {
      assert Mul(row, m) == Mul(h, m) + m;
    }
  }

  /** The padded image holds the source pixel `(col - 1, row - 1)` at row `row`, column
      `col` inside its border and zero on the border. */
  lemma PaddedPoint(image: seq<Byte>, w: nat, h: nat, row: nat, col: nat)
    requires h * w <= |image|
    requires row < h + 2 && col < w + 2
    ensures |Padded(image, w, h)| == (h + 2) * (w + 2)
    ensures row * (w + 2) + col < (h + 2) * (w + 2)
    ensures Padded(image, w, h)[row * (w + 2) + col] == PaddedAt(image, w, h, row, col)
  {
    PaddedLength(image, w, h);
    PaddedPointMul(image, w, h, row, col);
    MulIsProduct(row, w + 2);
  }
}
