/** The ranked layout types (layout/src/dimensional_types.rs): sizes and offsets with one
    component per axis, a box of an offset and a size, and a thickness of a leading and a
    trailing size. A rank-`n` value holds `n` components. */
module DimensionalTypes {
  /** `Size<RANK>`: `u32` components, unbounded here. */
  type Size = seq<nat>

  /** `Offset<RANK>`: `i32` components, unbounded here. */
  type Offset = seq<int>

  datatype Box = Box(offset: Offset, size: Size)

  datatype Thickness = Thickness(leading: Size, trailing: Size)

  /** `Size::EMPTY`, which is also `Size::default()`. */
  function EmptySize(rank: nat): (s: Size)
    ensures |s| == rank && forall i :: 0 <= i < rank ==> s[i] == 0
  {
    seq(rank, _ => 0)
  }

  /** `Offset::ZERO`, which is also `Offset::default()`. */
  function ZeroOffset(rank: nat): (o: Offset)
    ensures |o| == rank && forall i :: 0 <= i < rank ==> o[i] == 0
  {
    seq(rank, _ => 0)
  }

  /** `Box::EMPTY`. */
  function EmptyBox(rank: nat): (b: Box)
    ensures b.offset == ZeroOffset(rank) && b.size == EmptySize(rank)
  {
    Box(ZeroOffset(rank), EmptySize(rank))
  }

  /** `Thickness::ZERO`. */
  function ZeroThickness(rank: nat): (t: Thickness)
    ensures t.leading == EmptySize(rank) && t.trailing == EmptySize(rank)
  {
    Thickness(EmptySize(rank), EmptySize(rank))
  }

  /** The componentwise sum of two sizes of the same rank. */
  function Sum(a: Size, b: Size): (r: Size)
    requires |a| == |b|
    ensures |r| == |a|
  {
    seq(|a|, i requires 0 <= i < |a| => a[i] + b[i])
  }

  /** `add_assign`: adds `rhs` into `size`, one component at a time. */
  method AddAssign(size: array<nat>, rhs: Size)
    requires size.Length == |rhs|
    modifies size
    ensures size[..] == Sum(old(size[..]), rhs)
  {
    for i := 0 to size.Length
      invariant forall k :: 0 <= k < i ==> size[k] == old(size[k]) + rhs[k]
      invariant forall k :: i <= k < size.Length ==> size[k] == old(size[k])
    {
      size[i] := size[i] + rhs[i];
    }
  }

  /** `Size + Size`, built on `add_assign` over a copy of the left operand. */
  method Add(a: Size, b: Size) returns (r: Size)
    requires |a| == |b|
    ensures |r| == |a| && forall i :: 0 <= i < |a| ==> r[i] == a[i] + b[i]
  {
    var size := new nat[|a|](i requires 0 <= i < |a| => a[i]);
    AddAssign(size, b);
    r := size[..];
  }

  /** The empty size is the identity of addition. */
  lemma EmptyIsIdentity(s: Size)
    ensures Sum(s, EmptySize(|s|)) == s && Sum(EmptySize(|s|), s) == s
  {
  }

  /** Addition does not depend on the order of its operands or of its steps. */
  lemma SumCommutesAndAssociates(a: Size, b: Size, c: Size)
    requires |a| == |b| == |c|
    ensures Sum(a, b) == Sum(b, a)
    ensures Sum(Sum(a, b), c) == Sum(a, Sum(b, c))
  {
  }

  /** A sum is at least each of its operands, component by component. */
  lemma SumGrows(a: Size, b: Size)
    requires |a| == |b|
    ensures forall i :: 0 <= i < |a| ==> Sum(a, b)[i] >= a[i] && Sum(a, b)[i] >= b[i]
  {
  }
}
