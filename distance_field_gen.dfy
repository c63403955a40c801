/** text/src/distance_field_gen.rs: the edge detection that seeds the distance field of a
    glyph (a port of Skia's generator). The Euclidean distance transform passes and the
    packing of distances into bytes work on floats and are not part of this model. */
module DistanceFieldGen {
  import opened SwashImage
  import opened Arith

  /** `DISTANCE_FIELD_PAD`. */
  const DistanceFieldPad: nat := 4

  /** `NeighborFlags`: one bit per 8-connected neighbour. */
  const Left: bv8 := 0x01
  const Right: bv8 := 0x02
  const TopLeft: bv8 := 0x04
  const Top: bv8 := 0x08
  const TopRight: bv8 := 0x10
  const BottomLeft: bv8 := 0x20
  const Bottom: bv8 := 0x40
  const BottomRight: bv8 := 0x80
  const All: bv8 := 0xff

  /** Column step of neighbour `n` (the order of the `offsets` array). */
  function Dx(n: nat): int
    requires n < 8
  {
    if n == 0 || n == 2 || n == 5 then -1
    else if n == 1 || n == 4 || n == 7 then 1
    else 0
  }

  /** Row step of neighbour `n`. */
  function Dy(n: nat): int
    requires n < 8
  {
    if 2 <= n <= 4 then -1 else if 5 <= n then 1 else 0
  }

  /** `offsets[n]` for an image `width` pixels wide. */
  function Offset(n: nat, width: nat): (r: int)
    requires n < 8
    ensures r == (if Dy(n) < 0 then -(width as int) else if Dy(n) > 0 then width as int else 0) + Dx(n)
  {
    match n
    case 0 => -1
    case 1 => 1
    case 2 => -(width as int) - 1
    case 3 => -(width as int)
    case 4 => -(width as int) + 1
    case 5 => width as int - 1
    case 6 => width as int
    case 7 => width as int + 1
  }

  /** Whether bit `n` of `mask` is set: `(1 << n) & mask != 0`. */
  predicate Enabled(mask: bv8, n: nat)
    requires n < 8
  {
    (1 as bv8 << n) & mask != 0
  }

  /** The flag bits are the neighbours in `offsets` order. */
  lemma FlagsAreNeighbours()
    ensures Left == 1 << 0 && Right == 1 << 1 && TopLeft == 1 << 2 && Top == 1 << 3
    ensures TopRight == 1 << 4 && BottomLeft == 1 << 5 && Bottom == 1 << 6 && BottomRight == 1 << 7
    ensures All == Left | Right | TopLeft | Top | TopRight | BottomLeft | Bottom | BottomRight
  {
  }

  /** The edge test between a pixel and one neighbour: `>> 7` of a byte is its division by
      128, so the test is that exactly one of the two is at least 128, or that both are
      non-zero and below 128. */
  predicate EdgeBetween(current: Byte, neighbour: Byte) {
    var currentCheck := current / 128;
    var neighbourCheck := neighbour / 128;
    currentCheck != neighbourCheck
      || (currentCheck == 0 && neighbourCheck == 0 && current != 0 && neighbour != 0)
  }

  /** Edges in words: the pixels lie on different sides of 128, or both are grey. */
  lemma EdgeBetweenMeaning(a: Byte, b: Byte)
    ensures EdgeBetween(a, b) <==> (a >= 128) != (b >= 128) || (0 < a < 128 && 0 < b < 128)
    ensures EdgeBetween(a, b) == EdgeBetween(b, a)
  {
  }

  /** The result of `found_edge`, or the index it reads outside the image (the source reads
      through a raw pointer and does not check). */
  datatype EdgeTest = Edge(found: bool) | ReadsOutside(index: int)

  /** What `found_edge` does from neighbour `n` on: disabled neighbours are skipped, the
      first edge ends the search. */
  function Probe(image: seq<Byte>, pos: nat, width: nat, mask: bv8, n: nat): EdgeTest
    requires pos < |image| && n <= 8
    decreases 8 - n
  {
    if n == 8 then Edge(false)
    else if !Enabled(mask, n) then Probe(image, pos, width, mask, n + 1)
    else
      var k := pos + Offset(n, width);
      if k < 0 || k >= |image| then ReadsOutside(k)
      else if EdgeBetween(image[pos], image[k]) then Edge(true)
      else Probe(image, pos, width, mask, n + 1)
  }

  /** `found_edge`: tests the pixel at `pos` against the neighbours that `mask` enables. */
  method FoundEdge(image: seq<Byte>, pos: nat, width: nat, mask: bv8) returns (r: EdgeTest)
    requires pos < |image|
    ensures r == Probe(image, pos, width, mask, 0)
  {
    var currVal := image[pos];
    var n := 0;
    while n < 8
      invariant n <= 8
      invariant Probe(image, pos, width, mask, 0) == Probe(image, pos, width, mask, n)
    {
      if (1 as bv8 << n) & mask == 0 {
        n := n + 1;
        continue;
      }
      var checkIndex := pos + Offset(n, width);
      if checkIndex < 0 || checkIndex >= |image| {
        return ReadsOutside(checkIndex);
      }
      if EdgeBetween(currVal, image[checkIndex]) {
        return Edge(true);
      }
      n := n + 1;
    }
    return Edge(false);
  }

  /** Neighbour `m` is enabled, lies in the image and forms an edge with the pixel at `pos`. */
  predicate ProbeHit(image: seq<Byte>, pos: nat, width: nat, mask: bv8, m: nat)
    requires pos < |image|
  {
    m < 8 && Enabled(mask, m) && 0 <= pos + Offset(m, width) < |image| &&
    EdgeBetween(image[pos], image[pos + Offset(m, width)])
  }

  /** When every enabled neighbour lies in the image, the probe finds an edge exactly when
      some enabled neighbour forms one, and an empty mask finds none. */
  lemma {:induction false} ProbeMeaning(image: seq<Byte>, pos: nat, width: nat, mask: bv8, n: nat)
    requires pos < |image| && n <= 8
    requires forall m :: n <= m < 8 && Enabled(mask, m) ==> 0 <= pos + Offset(m, width) < |image|
    ensures Probe(image, pos, width, mask, n).Edge?
    ensures Probe(image, pos, width, mask, n).found <==>
      exists m :: n <= m < 8 && ProbeHit(image, pos, width, mask, m)
    decreases 8 - n
  {
    if n < 8 {
      ProbeMeaning(image, pos, width, mask, n + 1);
      if ProbeHit(image, pos, width, mask, n) {
        assert n <= n < 8 && ProbeHit(image, pos, width, mask, n);
      }
    }
  }

  /** `check_mask` for pixel `(i, j)` of an `iw x ih` image, as written: the first column
      clears LEFT, TOP and BOTTOM_LEFT. */
  function CheckMaskAsWritten(i: nat, j: nat, iw: nat, ih: nat): bv8 {
    All
      & (if i == 0 then !(Left | Top | BottomLeft) else All)
      & (if i == iw - 1 then !(Right | TopRight | BottomRight) else All)
      & (if j == 0 then !(TopLeft | Top | TopRight) else All)
      & (if j == ih - 1 then !(BottomLeft | Bottom | BottomRight) else All)
  }

  /** `check_mask` with the first column clearing LEFT, TOP_LEFT and BOTTOM_LEFT, the three
      neighbours to the left, as in the last column and in Skia's original. */
  function CheckMask(i: nat, j: nat, iw: nat, ih: nat): bv8 {
    All
      & (if i == 0 then !(Left | TopLeft | BottomLeft) else All)
      & (if i == iw - 1 then !(Right | TopRight | BottomRight) else All)
      & (if j == 0 then !(TopLeft | Top | TopRight) else All)
      & (if j == ih - 1 then !(BottomLeft | Bottom | BottomRight) else All)
  }

  /** As written, pixel (0, 1) of an all-zero 3 x 3 image (the padded image of a 1 x 1
      glyph) tests its TOP_LEFT neighbour, one byte before the image, and never tests the
      pixel above it. */
  lemma CheckMaskAsWrittenReadsBefore()
    ensures Enabled(CheckMaskAsWritten(0, 1, 3, 3), 2)
    ensures !Enabled(CheckMaskAsWritten(0, 1, 3, 3), 3)
    ensures Probe(seq(9, _ => 0), 3, 3, CheckMaskAsWritten(0, 1, 3, 3), 0) == ReadsOutside(-1)
  {
    var image: seq<Byte> := seq(9, _ => 0);
    var mask := CheckMaskAsWritten(0, 1, 3, 3);
    assert mask == 0xd6;
    assert Probe(image, 3, 3, mask, 1) == Probe(image, 3, 3, mask, 2);
  }

  /** With the corrected mask every enabled neighbour of a pixel lies in the image, and the
      disabled ones are exactly those outside it. */
  lemma CheckMaskKeepsInside(i: nat, j: nat, iw: nat, ih: nat, n: nat)
    requires i < iw && j < ih && n < 8
    ensures Enabled(CheckMask(i, j, iw, ih), n) <==>
      0 <= i + Dx(n) < iw && 0 <= j + Dy(n) < ih
  {
  }

  /** The neighbour `n` of pixel `(i, j)`, when inside the image, is at its flat index
      (row offsets as repeated addition). */
  lemma NeighbourIndex(i: nat, j: nat, iw: nat, ih: nat, n: nat)
    requires i < iw && j < ih && n < 8
    requires 0 <= i + Dx(n) < iw && 0 <= j + Dy(n) < ih
    ensures Mul(j, iw) + i + Offset(n, iw) == Mul(j + Dy(n), iw) + (i + Dx(n))
    ensures 0 <= Mul(j, iw) + i + Offset(n, iw) < Mul(ih, iw)
  {
    if Dy(n) > 0 {
      assert Mul(j + 1, iw) == Mul(j, iw) + iw;
    }
    MulRowWithin(j + Dy(n), ih, iw);
  }

  /** Pixel `(x, y)` of an `iw x ih` image stored row by row; zero outside it. */
  function PixelAt(image: seq<Byte>, iw: nat, ih: nat, x: int, y: int): Byte
    requires |image| == iw * ih
  {
    if 0 <= x < iw && 0 <= y < ih then
      MulIsProduct(ih, iw);
      MulRowWithin(y, ih, iw);
      image[Mul(y, iw) + x]
    else 0
  }

  /** The edge pixels, independently of masks and offsets: a pixel is an edge when some
      8-connected neighbour inside the image forms an edge with it. */
  predicate IsEdgePixel(image: seq<Byte>, iw: nat, ih: nat, i: nat, j: nat)
    requires |image| == iw * ih
  {
    exists n :: 0 <= n < 8 && EdgeNeighbour(image, iw, ih, i, j, n)
  }

  /** Neighbour `n` of pixel `(i, j)` lies in the image and forms an edge with it. */
  predicate EdgeNeighbour(image: seq<Byte>, iw: nat, ih: nat, i: nat, j: nat, n: nat)
    requires |image| == iw * ih
  {
    n < 8 && 0 <= i + Dx(n) < iw && 0 <= j + Dy(n) < ih &&
    EdgeBetween(PixelAt(image, iw, ih, i, j), PixelAt(image, iw, ih, i + Dx(n), j + Dy(n)))
  }

  /** An in-image neighbour read through its offset is the neighbouring pixel. */
  lemma NeighbourPixel(image: seq<Byte>, iw: nat, ih: nat, i: nat, j: nat, m: nat)
    requires |image| == iw * ih && i < iw && j < ih && m < 8
    requires 0 <= i + Dx(m) < iw && 0 <= j + Dy(m) < ih
    ensures 0 <= Mul(j, iw) + i < |image|
    ensures 0 <= Mul(j, iw) + i + Offset(m, iw) < |image|
    ensures image[Mul(j, iw) + i] == PixelAt(image, iw, ih, i, j)
    ensures image[Mul(j, iw) + i + Offset(m, iw)] == PixelAt(image, iw, ih, i + Dx(m), j + Dy(m))
  {
    MulIsProduct(ih, iw);
    MulRowWithin(j, ih, iw);
    NeighbourIndex(i, j, iw, ih, m);
  }

  /** With the corrected mask every neighbour `found_edge` reads is inside the image. */
  lemma CheckMaskReadsInside(image: seq<Byte>, iw: nat, ih: nat, i: nat, j: nat)
    requires |image| == iw * ih && i < iw && j < ih
    ensures Mul(j, iw) + i < |image|
    ensures forall m :: 0 <= m < 8 && Enabled(CheckMask(i, j, iw, ih), m) ==>
      0 <= Mul(j, iw) + i + Offset(m, iw) < |image|
  {
    MulIsProduct(ih, iw);
    MulRowWithin(j, ih, iw);
    forall m | 0 <= m < 8 && Enabled(CheckMask(i, j, iw, ih), m)
      ensures 0 <= Mul(j, iw) + i + Offset(m, iw) < |image|
    {
      CheckMaskKeepsInside(i, j, iw, ih, m);
      NeighbourIndex(i, j, iw, ih, m);
    }
  }

  /** An edge the probe finds through a neighbour the corrected mask enables makes the
      pixel an edge. */
  lemma ProbeEdgeIsEdgePixel(image: seq<Byte>, iw: nat, ih: nat, i: nat, j: nat, m: nat)
    requires |image| == iw * ih && i < iw && j < ih
    requires Mul(j, iw) + i < |image|
    requires ProbeHit(image, Mul(j, iw) + i, iw, CheckMask(i, j, iw, ih), m)
    ensures IsEdgePixel(image, iw, ih, i, j)
  {
    CheckMaskKeepsInside(i, j, iw, ih, m);
    NeighbourPixel(image, iw, ih, i, j, m);
    assert EdgeNeighbour(image, iw, ih, i, j, m);
  }

  /** A neighbour that makes the pixel an edge is one the probe tests: `m` is such a
      neighbour. */
  lemma EdgePixelIsProbed(image: seq<Byte>, iw: nat, ih: nat, i: nat, j: nat) returns (m: nat)
    requires |image| == iw * ih && i < iw && j < ih
    requires IsEdgePixel(image, iw, ih, i, j)
    ensures m < 8 && Mul(j, iw) + i < |image|
    ensures ProbeHit(image, Mul(j, iw) + i, iw, CheckMask(i, j, iw, ih), m)
  {
    m :| 0 <= m < 8 && EdgeNeighbour(image, iw, ih, i, j, m);
    CheckMaskKeepsInside(i, j, iw, ih, m);
    NeighbourPixel(image, iw, ih, i, j, m);
  }

  /** With the corrected mask the probe of an edge pixel finds an edge. */
  lemma EdgePixelIsFound(image: seq<Byte>, iw: nat, ih: nat, i: nat, j: nat)
    requires |image| == iw * ih && i < iw && j < ih
    requires IsEdgePixel(image, iw, ih, i, j)
    ensures Mul(j, iw) + i < |image|
    ensures Probe(image, Mul(j, iw) + i, iw, CheckMask(i, j, iw, ih), 0) == Edge(true)
  {
    CheckMaskReadsInside(image, iw, ih, i, j);
    var pos := Mul(j, iw) + i;
    var mask := CheckMask(i, j, iw, ih);
    ProbeMeaning(image, pos, iw, mask, 0);
    var m := EdgePixelIsProbed(image, iw, ih, i, j);
    assert 0 <= m < 8 && ProbeHit(image, pos, iw, mask, m);
  }

  /** With the corrected mask an edge the probe finds makes the pixel an edge. */
  lemma FoundIsEdgePixel(image: seq<Byte>, iw: nat, ih: nat, i: nat, j: nat)
    requires |image| == iw * ih && i < iw && j < ih
    ensures Mul(j, iw) + i < |image|
    ensures Probe(image, Mul(j, iw) + i, iw, CheckMask(i, j, iw, ih), 0) == Edge(true) ==>
      IsEdgePixel(image, iw, ih, i, j)
  {
    CheckMaskReadsInside(image, iw, ih, i, j);
    var pos := Mul(j, iw) + i;
    var mask := CheckMask(i, j, iw, ih);
    ProbeMeaning(image, pos, iw, mask, 0);
    if Probe(image, pos, iw, mask, 0) == Edge(true) {
      var m :| 0 <= m < 8 && ProbeHit(image, pos, iw, mask, m);
      ProbeEdgeIsEdgePixel(image, iw, ih, i, j, m);
    }
  }

  /** With the corrected mask, `found_edge` at pixel `(i, j)` reads only inside the image
      and answers whether the pixel is an edge. */
  lemma FoundEdgeIsEdgePixel(image: seq<Byte>, iw: nat, ih: nat, i: nat, j: nat)
    requires |image| == iw * ih && i < iw && j < ih
    ensures Mul(j, iw) + i < |image|
    ensures Probe(image, Mul(j, iw) + i, iw, CheckMask(i, j, iw, ih), 0) == Edge(IsEdgePixel(image, iw, ih, i, j))
  {
    CheckMaskReadsInside(image, iw, ih, i, j);
    ProbeMeaning(image, Mul(j, iw) + i, iw, CheckMask(i, j, iw, ih), 0);
    FoundIsEdgePixel(image, iw, ih, i, j);
    if IsEdgePixel(image, iw, ih, i, j) {
      EdgePixelIsFound(image, iw, ih, i, j);
    }
  }

  /** `255` for an edge pixel, else the `0` the buffer was initialised with. */
  function EdgeByte(edge: bool): Byte {
    if edge then 255 else 0
  }

  /** The first `n` bytes of edge row `j`. */
  function EdgeRow(image: seq<Byte>, iw: nat, ih: nat, j: nat, n: nat): (r: seq<Byte>)
    requires |image| == iw * ih
    ensures |r| == n
  {
    if n == 0 then [] else EdgeRow(image, iw, ih, j, n - 1) + [EdgeByte(IsEdgePixel(image, iw, ih, n - 1, j))]
  }

  /** Byte `i` of the edge row marks whether pixel `(i, j)` is an edge. */
  lemma {:induction false} EdgeRowAt(image: seq<Byte>, iw: nat, ih: nat, j: nat, n: nat, i: nat)
    requires |image| == iw * ih && i < n
    ensures EdgeRow(image, iw, ih, j, n)[i] == EdgeByte(IsEdgePixel(image, iw, ih, i, j))
  {
    if i < n - 1 {
      EdgeRowAt(image, iw, ih, j, n - 1, i);
    }
  }

  /** One pixel of the inner loop of `init_glyph_data`: the mask for pixel `(i, j)` and
      the edge test at the image pointer `pos`. */
  method MarkPixel(image: seq<Byte>, iw: nat, ih: nat, i: nat, j: nat, pos: nat) returns (b: Byte)
    requires |image| == iw * ih && i < iw && j < ih && pos == Mul(j, iw) + i
    ensures b == EdgeByte(IsEdgePixel(image, iw, ih, i, j))
  {
    var checkMask := CheckMask(i, j, iw, ih);
    FoundEdgeIsEdgePixel(image, iw, ih, i, j);
    var found := FoundEdge(image, pos, iw, checkMask);
    b := EdgeByte(found == Edge(true));
  }

  /** The inner loop of `init_glyph_data` over row `j`: the image pointer `pos` starts at
      the row's first pixel and moves one pixel per step. */
  method MarkRow(image: seq<Byte>, iw: nat, ih: nat, j: nat, pos0: nat) returns (row: seq<Byte>, pos: nat)
    requires |image| == iw * ih && j < ih && pos0 == Mul(j, iw)
    ensures row == EdgeRow(image, iw, ih, j, iw)
    ensures pos == Mul(j + 1, iw)
  {
    row, pos := [], pos0;
    var i := 0;
    while i < iw
      invariant i <= iw && pos == pos0 + i
      invariant row == EdgeRow(image, iw, ih, j, i)
    {
      var b := MarkPixel(image, iw, ih, i, j, pos);
      row := row + [b];
      pos := pos + 1;
      i := i + 1;
    }
  }

  /** The edge marking of `init_glyph_data` over the padded `iw x ih` image, with the
      corrected first-column mask; the edge buffer is modelled row by row, without the
      surrounding padding of the distance field's storage. */
  method MarkEdges(image: seq<Byte>, iw: nat, ih: nat) returns (edges: seq<seq<Byte>>)
    requires |image| == iw * ih
    ensures |edges| == ih
    ensures forall j :: 0 <= j < ih ==> |edges[j]| == iw
    ensures forall j, i :: 0 <= j < ih && 0 <= i < iw ==>
      edges[j][i] == EdgeByte(IsEdgePixel(image, iw, ih, i, j))
  {
    edges := [];
    var pos := 0;
    var j := 0;
    while j < ih
      invariant j <= ih && |edges| == j && pos == Mul(j, iw)
      invariant forall l :: 0 <= l < j ==> |edges[l]| == iw
      invariant forall l, i :: 0 <= l < j && 0 <= i < iw ==>
        edges[l][i] == EdgeByte(IsEdgePixel(image, iw, ih, i, l))
    {
      var row;
      row, pos := MarkRow(image, iw, ih, j, pos);
      forall i | 0 <= i < iw
        ensures row[i] == EdgeByte(IsEdgePixel(image, iw, ih, i, j))
      {
        EdgeRowAt(image, iw, ih, j, iw, i);
      }
      edges := edges + [row];
      j := j + 1;
    }
  }

  /** `generate_distance_field_from_image` up to its edge marking: the output must hold
      `(w + 2 pad) x (h + 2 pad)` bytes and the input is the glyph padded to
      `(w + 2) x (h + 2)` (the source's debug assertions); it always reports success. */
  method GenerateDistanceField(distanceField: seq<Byte>, input: seq<Byte>, w: nat, h: nat)
    returns (ok: bool, edges: seq<seq<Byte>>)
    requires |distanceField| == (w + 2 * DistanceFieldPad) * (h + 2 * DistanceFieldPad)
    requires |input| == (w + 2) * (h + 2)
    ensures ok
    ensures |edges| == h + 2 && forall j :: 0 <= j < h + 2 ==> |edges[j]| == w + 2
    ensures forall j, i :: 0 <= j < h + 2 && 0 <= i < w + 2 ==>
      edges[j][i] == EdgeByte(IsEdgePixel(input, w + 2, h + 2, i, j))
  {
    edges := MarkEdges(input, w + 2, h + 2);
    ok := true;
  }
}
