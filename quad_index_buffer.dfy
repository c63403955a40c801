/** renderer/src/tools/quad_index_buffer.rs: the shared index buffer that draws every quad as
    two triangles, grown by doubling. The buffer's `u16` contents stand in for the GPU buffer. */
module QuadIndexBuffer {
  /** `QUAD_INDICES`: the two triangles of a quad over its four vertices. */
  const QuadIndices: seq<int> := [0, 1, 2, 0, 2, 3]

  /** `INDICES_PER_QUAD`. */
  const IndicesPerQuad: nat := 6

  /** The indices of quad `q`: `QUAD_INDICES` shifted by `(q << 2) as u16`, which wraps at
      2^16. */
  function QuadIndicesOf(q: nat): (r: seq<int>)
    ensures |r| == IndicesPerQuad
    ensures forall j :: 0 <= j < IndicesPerQuad ==> 0 <= r[j] < 0x1_0000
  {
    seq(6, j requires 0 <= j < 6 => QuadIndices[j] + (4 * q) % 0x1_0000)
  }

  /** The array `generate_array` builds for `n` quads. */
  function QuadIndexArray(n: nat): seq<int>
  {
    if n == 0 then [] else QuadIndexArray(n - 1) + QuadIndicesOf(n - 1)
  }

  lemma {:induction false} QuadIndexArrayLength(n: nat)
    ensures |QuadIndexArray(n)| == 6 * n
  {
    if n > 0 {
      QuadIndexArrayLength(n - 1);
    }
  }

  /** The array holds six indices per quad, quad `q`'s at `6 q`. */
  lemma QuadIndexArrayBlock(n: nat, q: nat)
    requires q < n
    ensures |QuadIndexArray(n)| == 6 * n
    ensures QuadIndexArray(n)[6 * q..6 * q + 6] == QuadIndicesOf(q)
  {
    QuadIndexArrayLength(n);
    QuadIndexArrayLength(q);
    QuadIndexArrayPrefix(q + 1, n);
    var upTo := QuadIndexArray(q + 1);
    assert upTo[6 * q..6 * q + 6] == QuadIndicesOf(q);
    assert QuadIndexArray(n)[6 * q..6 * q + 6] == upTo[6 * q..6 * q + 6];
  }

  /** Index `j` of quad `q` is `QUAD_INDICES[j]` shifted by the wrapped `4 q`. */
  lemma QuadIndexArrayAt(n: nat, q: nat, j: nat)
    requires q < n && j < 6
    ensures |QuadIndexArray(n)| == 6 * n
    ensures QuadIndexArray(n)[6 * q + j] == QuadIndices[j] + (4 * q) % 0x1_0000
  {
    QuadIndexArrayBlock(n, q);
    assert QuadIndexArray(n)[6 * q + j] == QuadIndexArray(n)[6 * q..6 * q + 6][j];
  }

  /** Below 2^14 quads nothing wraps: each quad's indices address exactly its own four
      vertices `4 q .. 4 q + 3`, as two triangles sharing the diagonal `4 q, 4 q + 2`. */
  lemma IndicesAddressOwnQuad(n: nat, q: nat)
    requires q < n && q < 0x4000
    ensures |QuadIndexArray(n)| == 6 * n
    ensures QuadIndexArray(n)[6 * q..6 * q + 6] ==
      [4 * q, 4 * q + 1, 4 * q + 2, 4 * q, 4 * q + 2, 4 * q + 3]
  {
    QuadIndexArrayBlock(n, q);
    QuadIndicesUnwrapped(q);
  }

  /** Below 2^14 the shift `4 q` does not wrap. */
  lemma QuadIndicesUnwrapped(q: nat)
    requires q < 0x4000
    ensures QuadIndicesOf(q) == [4 * q, 4 * q + 1, 4 * q + 2, 4 * q, 4 * q + 2, 4 * q + 3]
  {
    assert (4 * q) % 0x1_0000 == 4 * q;
  }

  /** From quad 2^14 on the indices wrap around: quad 2^14 draws vertices 0 to 3 again. */
  lemma IndicesWrapAtQuadSixteenThousand(n: nat)
    requires 0x4000 < n
    ensures |QuadIndexArray(n)| == 6 * n
    ensures QuadIndexArray(n)[6 * 0x4000..6 * 0x4000 + 6] == QuadIndices
  {
    QuadIndexArrayBlock(n, 0x4000);
    assert (4 * 0x4000) % 0x1_0000 == 0;
  }

  /** The array for fewer quads is a prefix of the array for more. */
  lemma {:induction false} QuadIndexArrayPrefix(m: nat, n: nat)
    requires m <= n
    ensures QuadIndexArray(m) <= QuadIndexArray(n)
    decreases n
  {
    if m < n {
      QuadIndexArrayPrefix(m, n - 1);
    }
  }

  /** Below 2^14 quads the array for `n` quads addresses only their `4 n` vertices. */
  lemma {:induction false} QuadIndexArrayBounded(n: nat)
    requires n <= 0x4000
    ensures forall k :: 0 <= k < |QuadIndexArray(n)| ==> 0 <= QuadIndexArray(n)[k] < 4 * n
  {
    if n > 0 {
      QuadIndexArrayBounded(n - 1);
      QuadIndicesUnwrapped(n - 1);
    }
  }

  /** Drawing the first `quads` quads (below 2^14, within the capacity) reads only indices
      of their `4 * quads` vertices. */
  lemma DrawnIndicesInRange(quads: nat, capacity: nat)
    requires quads <= capacity && quads <= 0x4000
    ensures 6 * quads <= |QuadIndexArray(capacity)|
    ensures forall k :: 0 <= k < 6 * quads ==> 0 <= QuadIndexArray(capacity)[k] < 4 * quads
  {
    QuadIndexArrayLength(capacity);
    QuadIndexArrayLength(quads);
    QuadIndexArrayPrefix(quads, capacity);
    QuadIndexArrayBounded(quads);
  }

  function Pow2(k: nat): (r: nat)
    ensures r >= 1
  {
    if k == 0 then 1 else 2 * Pow2(k - 1)
  }

  function Max(a: nat, b: nat): nat
  {
    if a < b then b else a
  }

  /** Doubling `c` until it reaches `required`. */
  function Doubling(c: nat, required: nat): nat
    requires c >= 1
    decreases required - c
  {
    if c >= required then c else Doubling(2 * c, required)
  }

  /** The capacity `ensure_can_index_num_quads` grows to. */
  function GrownCapacity(current: nat, required: nat): nat
  {
    Doubling(2 * Max(current, 1), required)
  }

  lemma {:induction false} DoublingSpec(base: nat, k: nat, required: nat)
    requires base >= 1 && k >= 1
    requires k == 1 || base * Pow2(k - 1) < required
    ensures exists m: nat :: (m >= 1 && Doubling(base * Pow2(k), required) == base * Pow2(m) &&
      base * Pow2(m) >= required && (m == 1 || base * Pow2(m - 1) < required))
    decreases required - base * Pow2(k)
  {
    var c := base * Pow2(k);
    if c < required {
      assert base * Pow2(k + 1) == 2 * c;
      DoublingSpec(base, k + 1, required);
    } else {
      assert Doubling(c, required) == base * Pow2(k);
    }
  }

  /** The grown capacity is the smallest `max(current, 1) * 2^m` with `m >= 1` that can
      index `required` quads. */
  lemma GrownCapacityIsSmallest(current: nat, required: nat)
    ensures exists m: nat :: (m >= 1 && GrownCapacity(current, required) == Max(current, 1) * Pow2(m) &&
      GrownCapacity(current, required) >= required &&
      (m == 1 || Max(current, 1) * Pow2(m - 1) < required))
  {
    assert Max(current, 1) * Pow2(1) == 2 * Max(current, 1);
    DoublingSpec(Max(current, 1), 1, required);
  }

  /** `generate_array`: the indices of `quads` quads, one `QUAD_INDICES` block after
      another. */
  method GenerateArray(quads: nat) returns (v: seq<int>)
    ensures v == QuadIndexArray(quads)
  {
    v := [];
    var quadIndex := 0;
    while quadIndex < quads
      invariant quadIndex <= quads
      invariant v == QuadIndexArray(quadIndex)
    {
      var shift := (4 * quadIndex) % 0x1_0000;
      v := v + [QuadIndices[0] + shift, QuadIndices[1] + shift, QuadIndices[2] + shift,
                QuadIndices[3] + shift, QuadIndices[4] + shift, QuadIndices[5] + shift];
      quadIndex := quadIndex + 1;
    }
  }

  /** `QuadIndexBuffer`: the contents of the index buffer. */
  class QuadIndexBuffer {
    var indices: seq<int>

    /** The buffer holds the indices of `Quads()` whole quads. */
    ghost predicate Valid()
      reads this
    {
      |indices| % IndicesPerQuad == 0 && indices == QuadIndexArray(|indices| / IndicesPerQuad)
    }

    /** `QuadIndexBuffer::new`: an empty buffer. */
    constructor()
      ensures Valid() && Quads() == 0
    {
      indices := [];
    }

    /** `quads`: how many quads the buffer can index, its size divided by the size of one
        quad's indices. */
    function Quads(): (r: nat)
      reads this
      ensures IndicesPerQuad * r <= |indices| < IndicesPerQuad * r + IndicesPerQuad
    {
      |indices| / IndicesPerQuad
    }

    /** `ensure_can_index_num_quads`: nothing when the buffer is large enough; otherwise the
        buffer is replaced by one for the grown capacity. */
    method EnsureCanIndexNumQuads(required: nat)
      requires Valid()
      modifies this
      ensures Valid()
      ensures required <= old(Quads()) ==> indices == old(indices)
      ensures required > old(Quads()) ==>
        Quads() == GrownCapacity(old(Quads()), required) && indices == QuadIndexArray(Quads())
      ensures Quads() >= required
    {
      var current := Quads();
      if required <= current {
        return;
      }
      var proposed := 2 * Max(current, 1);
      while proposed < required
        invariant proposed >= 1
        invariant Doubling(proposed, required) == GrownCapacity(current, required)
        decreases required - proposed
      {
        proposed := 2 * proposed;
      }
      var generated := GenerateArray(proposed);
      QuadIndexArrayLength(proposed);
      indices := generated;
    }
  }
}
