/** The one-shot layouter of layout/src/layouter.rs, on values: the trace of entries it
    records, placing a trace, and the layout tree a trace encodes.

    A container's children are recorded in insertion order, each nested container after
    its own descendants, so a trace is the post-order encoding of a tree; placing pops it
    from the end, which emits each container before its children and the children in
    reverse insertion order. */
module LayoutTrees {
  import opened Wrappers
  import D = DimensionalTypes

  /** `LayoutAxis`: the index of the axis children are stacked along. */
  type LayoutAxis = nat

  const HORIZONTAL: LayoutAxis := 0
  const VERTICAL: LayoutAxis := 1
  const DEPTH: LayoutAxis := 2

  /** `TraceEntry`: a box relative to its container and the number of its children, 0 for
      a leaf. */
  datatype TraceEntry<Id> = TraceEntry(id: Id, bx: D.Box, children: nat)

  // Sizes and offsets of stacked children

  /** All sizes have `rank` components. */
  predicate OfRank(sizes: seq<D.Size>, rank: nat) {
    forall k :: 0 <= k < |sizes| ==> |sizes[k]| == rank
  }

  /** The sum of the `i`-th components. */
  function SumAt(sizes: seq<D.Size>, i: nat): nat
    requires forall k :: 0 <= k < |sizes| ==> i < |sizes[k]|
  {
    if sizes == [] then 0 else SumAt(sizes[..|sizes| - 1], i) + sizes[|sizes| - 1][i]
  }

  /** The largest `i`-th component, 0 for no sizes. */
  function MaxAt(sizes: seq<D.Size>, i: nat): nat
    requires forall k :: 0 <= k < |sizes| ==> i < |sizes[k]|
  {
    if sizes == [] then 0
    else
      var m := MaxAt(sizes[..|sizes| - 1], i);
      if m < sizes[|sizes| - 1][i] then sizes[|sizes| - 1][i] else m
  }

  /** The size of a container whose children have these sizes: the sum along the layout
      axis and the maximum along every other axis. */
  function Stacked(sizes: seq<D.Size>, axis: LayoutAxis, rank: nat): (r: D.Size)
    requires OfRank(sizes, rank)
    ensures |r| == rank
  {
    seq(rank, i requires 0 <= i < rank => if i == axis then SumAt(sizes, i) else MaxAt(sizes, i))
  }

  /** The offset after children of these sizes: their sum along the layout axis, 0 along
      every other axis. */
  function RunningOffset(sizes: seq<D.Size>, axis: LayoutAxis, rank: nat): (r: D.Offset)
    requires OfRank(sizes, rank)
    ensures |r| == rank
  {
    seq(rank, i requires 0 <= i < rank => if i == axis then SumAt(sizes, i) as int else 0)
  }

  /** The maximum bounds every component and is one of them, or 0. */
  lemma {:induction false} MaxAtBounds(sizes: seq<D.Size>, i: nat)
    requires forall k :: 0 <= k < |sizes| ==> i < |sizes[k]|
    ensures forall k :: 0 <= k < |sizes| ==> sizes[k][i] <= MaxAt(sizes, i)
    ensures MaxAt(sizes, i) == 0 || exists k :: 0 <= k < |sizes| && sizes[k][i] == MaxAt(sizes, i)
  {
    if sizes != [] {
      var n := |sizes| - 1;
      MaxAtBounds(sizes[..n], i);
      assert forall k :: 0 <= k < n ==> sizes[..n][k] == sizes[k];
    }
  }

  /** A container's size, component by component: along the layout axis the sum of its
      children's, along every other axis the largest of its children's (0 without
      children). */
  lemma StackedSize(sizes: seq<D.Size>, axis: LayoutAxis, rank: nat)
    requires OfRank(sizes, rank)
    ensures var r := Stacked(sizes, axis, rank);
      (axis < rank ==> r[axis] == SumAt(sizes, axis)) &&
      forall i :: 0 <= i < rank && i != axis ==>
        (forall k :: 0 <= k < |sizes| ==> sizes[k][i] <= r[i]) &&
        (r[i] == 0 || exists k :: 0 <= k < |sizes| && sizes[k][i] == r[i])
  {
    forall i | 0 <= i < rank && i != axis
      ensures (forall k :: 0 <= k < |sizes| ==> sizes[k][i] <= MaxAt(sizes, i)) &&
        (MaxAt(sizes, i) == 0 || exists k :: 0 <= k < |sizes| && sizes[k][i] == MaxAt(sizes, i))
    {
      MaxAtBounds(sizes, i);
    }
  }

  /** `Inner::child` on the size: the child's size is added along the layout axis and
      maxed in along the others. */
  function Combine(size: D.Size, child: D.Size, axis: LayoutAxis): (r: D.Size)
    requires |child| == |size|
    ensures |r| == |size|
  {
    seq(|size|, i requires 0 <= i < |size| => if i == axis then size[i] + child[i] else if size[i] < child[i] then child[i] else size[i])
  }

  /** Combining one more child size extends the stacked size. */
  lemma StackedStep(sizes: seq<D.Size>, child: D.Size, axis: LayoutAxis, rank: nat)
    requires OfRank(sizes, rank) && |child| == rank
    ensures OfRank(sizes + [child], rank)
    ensures Stacked(sizes + [child], axis, rank) == Combine(Stacked(sizes, axis, rank), child, axis)
  {
    var all := sizes + [child];
    assert all[..|sizes|] == sizes && all[|sizes|] == child;
  }

  /** Advancing the offset by one more child along the layout axis. */
  lemma RunningOffsetStep(sizes: seq<D.Size>, child: D.Size, axis: LayoutAxis, rank: nat)
    requires OfRank(sizes, rank) && |child| == rank && axis < rank
    ensures OfRank(sizes + [child], rank)
    ensures var o := RunningOffset(sizes, axis, rank);
      RunningOffset(sizes + [child], axis, rank) == o[axis := o[axis] + child[axis] as int]
  {
    var all := sizes + [child];
    assert all[..|sizes|] == sizes && all[|sizes|] == child;
  }

  // Layout trees

  /** A laid out node: a leaf, or a container with its layout axis and its children in
      insertion order. Boxes are relative to the enclosing container. */
  datatype Layout<Id> =
    | Leaf(id: Id, bx: D.Box)
    | Container(id: Id, bx: D.Box, axis: LayoutAxis, nested: seq<Layout<Id>>)

  function NestedOf<Id>(l: Layout<Id>): seq<Layout<Id>> {
    match l
    case Leaf(_, _) => []
    case Container(_, _, _, ns) => ns
  }

  function SizesOf<Id>(ls: seq<Layout<Id>>): (r: seq<D.Size>)
    ensures |r| == |ls| && forall k :: 0 <= k < |ls| ==> r[k] == ls[k].bx.size
  {
    if ls == [] then [] else SizesOf(ls[..|ls| - 1]) + [ls[|ls| - 1].bx.size]
  }

  /** Each child is placed at the offset the children before it advanced to. */
  predicate StackedAt<Id>(ls: seq<Layout<Id>>, axis: LayoutAxis, rank: nat)
    requires OfRank(SizesOf(ls), rank)
  {
    ls == [] ||
    var n := |ls| - 1;
    assert SizesOf(ls) == SizesOf(ls[..n]) + [ls[n].bx.size];
    StackedAt(ls[..n], axis, rank) && ls[n].bx.offset == RunningOffset(SizesOf(ls[..n]), axis, rank)
  }

  /** A tree as the layouter builds it: every box has `rank` components, a container with
      children stacks them along an axis it has, each child at the running offset, and has
      the stacked size of its children. */
  predicate Arranged<Id>(l: Layout<Id>, rank: nat)
    decreases l, 0
  {
    |l.bx.offset| == rank && |l.bx.size| == rank &&
    match l
    case Leaf(_, _) => true
    case Container(_, bx, axis, ns) =>
      (ArrangedAll(ns, rank) && (ns != [] ==> axis < rank) &&
       StackedAt(ns, axis, rank) && bx.size == Stacked(SizesOf(ns), axis, rank))
  }

  predicate ArrangedAll<Id>(ls: seq<Layout<Id>>, rank: nat)
    ensures ArrangedAll(ls, rank) ==> OfRank(SizesOf(ls), rank)
    decreases ls, 1
  {
    ls == [] || (ArrangedAll(ls[..|ls| - 1], rank) && Arranged(ls[|ls| - 1], rank))
  }

  function EntryOf<Id>(l: Layout<Id>): TraceEntry<Id> {
    TraceEntry(l.id, l.bx, |NestedOf(l)|)
  }

  /** The trace of a node: its children's, then its own entry. */
  function Encode<Id>(l: Layout<Id>): seq<TraceEntry<Id>>
    decreases l, 1
  {
    match l
    case Leaf(_, _) => [EntryOf(l)]
    case Container(_, _, _, ns) => EncodeAll(ns) + [EntryOf(l)]
  }

  function EncodeAll<Id>(ls: seq<Layout<Id>>): seq<TraceEntry<Id>>
    decreases ls, 0
  {
    if ls == [] then [] else EncodeAll(ls[..|ls| - 1]) + Encode(ls[|ls| - 1])
  }

  // Placing

  /** `add_offset`. */
  function AddOffset(b: D.Box, offset: D.Offset): (r: D.Box)
    requires |b.offset| == |offset|
    ensures |r.offset| == |offset| && r.size == b.size
    ensures forall i :: 0 <= i < |offset| ==> r.offset[i] == b.offset[i] + offset[i]
  {
    D.Box(seq(|offset|, i requires 0 <= i < |offset| => b.offset[i] + offset[i]), b.size)
  }

  /** Adding the zero offset leaves a box where it is. */
  lemma AddZeroOffset(b: D.Box)
    ensures AddOffset(b, D.ZeroOffset(|b.offset|)) == b
  {
  }

  /** Every entry's box has `rank` components. */
  predicate RankedTrace<Id>(trace: seq<TraceEntry<Id>>, rank: nat) {
    forall k :: 0 <= k < |trace| ==> |trace[k].bx.offset| == rank
  }

  /** The emitted boxes and the trace left over. */
  datatype Placement<Id> = Placement(out: seq<(Id, D.Box)>, trace: seq<TraceEntry<Id>>)

  /** `place_rec`: emits the entry at its absolute box, then pops and places as many
      entries as it has children, each relative to that box; an exhausted trace is the
      `expect` that panics. */
  function PlaceRec<Id>(trace: seq<TraceEntry<Id>>, offset: D.Offset, entry: TraceEntry<Id>): (r: Outcome<Placement<Id>>)
    requires RankedTrace(trace, |offset|) && |entry.bx.offset| == |offset|
    ensures r.Returns? ==> r.value.trace <= trace
    decreases |trace|, 1, 0
  {
    var absolute := AddOffset(entry.bx, offset);
    match PlaceChildren(trace, absolute.offset, entry.children)
    case Panics => Panics
    case Returns(p) => Returns(Placement([(entry.id, absolute)] + p.out, p.trace))
  }

  /** The loop of `place_rec` over the children. */
  function PlaceChildren<Id>(trace: seq<TraceEntry<Id>>, offset: D.Offset, n: nat): (r: Outcome<Placement<Id>>)
    requires RankedTrace(trace, |offset|)
    ensures r.Returns? ==> r.value.trace <= trace
    decreases |trace|, 0, n
  {
    if n == 0 then Returns(Placement([], trace))
    else if trace == [] then Panics
    else
      var init := trace[..|trace| - 1];
      match PlaceRec(init, offset, trace[|trace| - 1])
      case Panics => Panics
      case Returns(p) =>
        assert p.trace == init[..|p.trace|];
        match PlaceChildren(p.trace, offset, n - 1)
        case Panics => Panics
        case Returns(q) => Returns(Placement(p.out + q.out, q.trace))
  }

  /** Where a tree's boxes land when its container sits at `offset`: the node first, then
      its children, the last inserted first, each relative to the node's absolute box. */
  function Placed<Id>(l: Layout<Id>, offset: D.Offset): seq<(Id, D.Box)>
    requires Arranged(l, |offset|)
    decreases l, 1
  {
    var absolute := AddOffset(l.bx, offset);
    [(l.id, absolute)] +
    match l
    case Leaf(_, _) => []
    case Container(_, _, _, ns) => PlacedReversed(ns, absolute.offset)
  }

  function PlacedReversed<Id>(ls: seq<Layout<Id>>, offset: D.Offset): seq<(Id, D.Box)>
    requires ArrangedAll(ls, |offset|)
    decreases ls, 0
  {
    if ls == [] then []
    else Placed(ls[|ls| - 1], offset) + PlacedReversed(ls[..|ls| - 1], offset)
  }

  lemma {:induction false} EncodeAllRanked<Id>(ls: seq<Layout<Id>>, rank: nat)
    requires ArrangedAll(ls, rank)
    ensures RankedTrace(EncodeAll(ls), rank)
    decreases ls, 0
  {
    if ls != [] {
      var n := |ls| - 1;
      EncodeAllRanked(ls[..n], rank);
      assert Arranged(ls[n], rank);
      EncodeRanked(ls[n], rank);
    }
  }

  lemma {:induction false} EncodeRanked<Id>(l: Layout<Id>, rank: nat)
    requires Arranged(l, rank)
    ensures RankedTrace(Encode(l), rank)
    decreases l, 1
  {
    match l {
      case Leaf(_, _) =>
      case Container(_, _, _, ns) => EncodeAllRanked(ns, rank);
    }
  }

  /** Placing the trace of a tree, with anything recorded before it underneath: the tree is
      placed as Placed says, the rest of the trace is left, and nothing panics. */
  lemma {:induction false} PlaceEncoded<Id>(prefix: seq<TraceEntry<Id>>, l: Layout<Id>, offset: D.Offset)
    requires Arranged(l, |offset|) && RankedTrace(prefix, |offset|)
    ensures RankedTrace(prefix + EncodeAll(NestedOf(l)), |offset|)
    ensures PlaceRec(prefix + EncodeAll(NestedOf(l)), offset, EntryOf(l)) == Returns(Placement(Placed(l, offset), prefix))
    decreases l, 1
  {
    var absolute := AddOffset(l.bx, offset);
    match l {
      case Leaf(_, _) =>
        assert prefix + EncodeAll(NestedOf(l)) == prefix;
      case Container(_, _, _, ns) =>
        PlaceChildrenEncoded(prefix, ns, absolute.offset);
    }
  }

  lemma {:induction false} PlaceChildrenEncoded<Id>(prefix: seq<TraceEntry<Id>>, ls: seq<Layout<Id>>, offset: D.Offset)
    requires ArrangedAll(ls, |offset|) && RankedTrace(prefix, |offset|)
    ensures RankedTrace(prefix + EncodeAll(ls), |offset|)
    ensures PlaceChildren(prefix + EncodeAll(ls), offset, |ls|) == Returns(Placement(PlacedReversed(ls, offset), prefix))
    decreases ls, 0
  {
    EncodeAllRanked(ls, |offset|);
    if ls == [] {
      assert prefix + EncodeAll(ls) == prefix;
    } else {
      var n := |ls| - 1;
      var last := ls[n];
      var before := prefix + EncodeAll(ls[..n]);
      EncodeAllRanked(ls[..n], |offset|);
      EncodeNested(last);
      var init := before + EncodeAll(NestedOf(last));
      assert prefix + EncodeAll(ls) == init + [EntryOf(last)];
      PlaceEncoded(before, last, offset);
      PlaceChildrenEncoded(prefix, ls[..n], offset);
      PlaceChildrenStep(init, EntryOf(last), offset, |ls|);
      assert PlacedReversed(ls, offset) == Placed(last, offset) + PlacedReversed(ls[..n], offset);
    }
  }

  /** The trace of a node is its children's followed by its entry. */
  lemma EncodeNested<Id>(l: Layout<Id>)
    ensures Encode(l) == EncodeAll(NestedOf(l)) + [EntryOf(l)]
  {
  }

  /** One turn of the children loop: the last entry is popped and placed, then the rest. */
  lemma PlaceChildrenStep<Id>(init: seq<TraceEntry<Id>>, last: TraceEntry<Id>, offset: D.Offset, n: nat)
    requires n > 0 && RankedTrace(init + [last], |offset|)
    ensures RankedTrace(init, |offset|) && |last.bx.offset| == |offset|
    ensures PlaceChildren(init + [last], offset, n) ==
      match PlaceRec(init, offset, last)
      case Panics => Panics
      case Returns(p) =>
        match PlaceChildren(p.trace, offset, n - 1)
        case Panics => Panics
        case Returns(q) => Returns(Placement(p.out + q.out, q.trace))
  {
    var trace := init + [last];
    assert trace[..|trace| - 1] == init && trace[|trace| - 1] == last;
    assert forall k :: 0 <= k < |init| ==> trace[k] == init[k];
  }

  /** The shifted boxes. */
  function Shifted<Id>(out: seq<(Id, D.Box)>, d: D.Offset): (r: seq<(Id, D.Box)>)
    requires forall k :: 0 <= k < |out| ==> |out[k].1.offset| == |d|
    ensures |r| == |out|
  {
    seq(|out|, k requires 0 <= k < |out| => (out[k].0, AddOffset(out[k].1, d)))
  }

  lemma ShiftedAppend<Id>(x: seq<(Id, D.Box)>, y: seq<(Id, D.Box)>, d: D.Offset)
    requires forall k :: 0 <= k < |x| ==> |x[k].1.offset| == |d|
    requires forall k :: 0 <= k < |y| ==> |y[k].1.offset| == |d|
    ensures forall k :: 0 <= k < |x + y| ==> |(x + y)[k].1.offset| == |d|
    ensures Shifted(x + y, d) == Shifted(x, d) + Shifted(y, d)
  {
    assert forall k :: 0 <= k < |x + y| ==> (x + y)[k] == if k < |x| then x[k] else y[k - |x|];
  }

  function SumOffsets(a: D.Offset, b: D.Offset): (r: D.Offset)
    requires |a| == |b|
    ensures |r| == |a|
  {
    seq(|a|, i requires 0 <= i < |a| => a[i] + b[i])
  }

  lemma {:induction false} PlacedRanked<Id>(l: Layout<Id>, offset: D.Offset)
    requires Arranged(l, |offset|)
    ensures forall k :: 0 <= k < |Placed(l, offset)| ==> |Placed(l, offset)[k].1.offset| == |offset|
    decreases l, 1
  {
    match l {
      case Leaf(_, _) =>
      case Container(_, _, _, ns) => PlacedReversedRanked(ns, AddOffset(l.bx, offset).offset);
    }
  }

  lemma {:induction false} PlacedReversedRanked<Id>(ls: seq<Layout<Id>>, offset: D.Offset)
    requires ArrangedAll(ls, |offset|)
    ensures forall k :: 0 <= k < |PlacedReversed(ls, offset)| ==> |PlacedReversed(ls, offset)[k].1.offset| == |offset|
    decreases ls, 0
  {
    if ls != [] {
      var n := |ls| - 1;
      PlacedRanked(ls[n], offset);
      PlacedReversedRanked(ls[..n], offset);
    }
  }

  /** Placing at an offset moved by `d` moves every emitted box by `d`: every box is offset
      by the absolute offset a tree is placed at. */
  lemma {:induction false} PlacedShift<Id>(l: Layout<Id>, offset: D.Offset, d: D.Offset)
    requires Arranged(l, |offset|) && |d| == |offset|
    ensures forall k :: 0 <= k < |Placed(l, offset)| ==> |Placed(l, offset)[k].1.offset| == |d|
    ensures Placed(l, SumOffsets(offset, d)) == Shifted(Placed(l, offset), d)
    decreases l, 1
  {
    PlacedRanked(l, offset);
    var a := AddOffset(l.bx, offset);
    assert AddOffset(l.bx, SumOffsets(offset, d)).offset == SumOffsets(a.offset, d);
    match l {
      case Leaf(_, _) =>
      case Container(_, _, _, ns) =>
        PlacedReversedShift(ns, a.offset, d);
        var rest := PlacedReversed(ns, a.offset);
        assert Shifted([(l.id, a)] + rest, d) == [(l.id, AddOffset(a, d))] + Shifted(rest, d);
    }
  }

  lemma {:induction false} PlacedReversedShift<Id>(ls: seq<Layout<Id>>, offset: D.Offset, d: D.Offset)
    requires ArrangedAll(ls, |offset|) && |d| == |offset|
    ensures forall k :: 0 <= k < |PlacedReversed(ls, offset)| ==> |PlacedReversed(ls, offset)[k].1.offset| == |d|
    ensures PlacedReversed(ls, SumOffsets(offset, d)) == Shifted(PlacedReversed(ls, offset), d)
    decreases ls, 0
  {
    PlacedReversedRanked(ls, offset);
    if ls != [] {
      var n := |ls| - 1;
      PlacedShift(ls[n], offset, d);
      PlacedReversedShift(ls[..n], offset, d);
      PlacedRanked(ls[n], offset);
      PlacedReversedRanked(ls[..n], offset);
      ShiftedAppend(Placed(ls[n], offset), PlacedReversed(ls[..n], offset), d);
    }
  }
}
