/** The coverage checks of attributed text (examples/shared/src/attributed_text.rs): the
    attribute ranges of a text must start at 0, end at the text's length and follow each
    other without gaps; `shape_text` insists on this before it shapes anything. */
module AttributedText {
  import opened Wrappers

  /** `Range<usize>`. */
  datatype Range = Range(start: nat, end: nat)

  /** Each range ends where the next one starts. */
  ghost predicate Contiguous(ranges: seq<Range>) {
    forall i :: 0 <= i < |ranges| - 1 ==> ranges[i].end == ranges[i + 1].start
  }

  /** `assert_contiguous`: panics at the first pair of neighbours with a gap or an overlap. */
  function AssertContiguous(ranges: seq<Range>): (r: Outcome<()>)
    ensures r.Returns? <==> Contiguous(ranges)
    decreases |ranges|
  {
    if |ranges| < 2 then Returns(())
    else if ranges[0].end != ranges[1].start then Panics
    else
      var rest := AssertContiguous(ranges[1..]);
      assert Contiguous(ranges) <==> Contiguous(ranges[1..]) by {
        if Contiguous(ranges[1..]) {
          forall i | 1 <= i < |ranges| - 1
            ensures ranges[i].end == ranges[i + 1].start
          {
            assert ranges[1..][i - 1] == ranges[i];
          }
        }
      }
      rest
  }

  /** The ranges, from the first start to the last end, cover `0..textLen` without gaps. */
  ghost predicate Covers(ranges: seq<Range>, textLen: nat) {
    ranges != [] && ranges[0].start == 0 && ranges[|ranges| - 1].end == textLen && Contiguous(ranges)
  }

  /** `assert_covers_all_text`: nothing is checked for an empty text; otherwise it panics
      unless the ranges cover it (including when there are no ranges at all, where
      `ranges[0]` is out of bounds). */
  function AssertCoversAllText(ranges: seq<Range>, textLen: nat): (r: Outcome<()>)
    ensures r.Returns? <==> textLen == 0 || Covers(ranges, textLen)
  {
    if textLen == 0 then Returns(())
    else if ranges == [] then Panics
    else if ranges[0].start != 0 then Panics
    else if ranges[|ranges| - 1].end != textLen then Panics
    else AssertContiguous(ranges)
  }

  /** Covering ranges that are not reversed reach every position of the text: each
      position lies in exactly one of them. */
  lemma {:induction false} CoveredPositions(ranges: seq<Range>, textLen: nat, p: nat)
    requires Covers(ranges, textLen) && p < textLen
    requires forall i :: 0 <= i < |ranges| ==> ranges[i].start <= ranges[i].end
    ensures exists i :: 0 <= i < |ranges| && ranges[i].start <= p < ranges[i].end
    ensures forall i, j :: 0 <= i < |ranges| && 0 <= j < |ranges| && ranges[i].start <= p < ranges[i].end && ranges[j].start <= p < ranges[j].end ==> i == j
  {
    StartsAscend(ranges);
    var k := LastStartAtMost(ranges, p, |ranges|);
    if k < |ranges| - 1 {
      assert ranges[k + 1].start == ranges[k].end;
    }
    assert ranges[k].start <= p < ranges[k].end;
  }

  /** In contiguous ranges that are not reversed, an earlier range ends at or before a
      later one starts. */
  lemma StartsAscend(ranges: seq<Range>)
    requires Contiguous(ranges)
    requires forall i :: 0 <= i < |ranges| ==> ranges[i].start <= ranges[i].end
    ensures forall i, j :: 0 <= i < j < |ranges| ==> ranges[i].end <= ranges[j].start
  {
    forall i, j | 0 <= i < j < |ranges|
      ensures ranges[i].end <= ranges[j].start
    {
      EndBeforeStart(ranges, i, j);
    }
  }

  lemma {:induction false} EndBeforeStart(ranges: seq<Range>, i: nat, j: nat)
    requires Contiguous(ranges)
    requires forall i :: 0 <= i < |ranges| ==> ranges[i].start <= ranges[i].end
    requires i < j < |ranges|
    ensures ranges[i].end <= ranges[j].start
    decreases j - i
  {
    if j > i + 1 {
      EndBeforeStart(ranges, i, j - 1);
    }
  }

  /** The last of the first `n` ranges that starts at or before `p`, given that the first
      one does. */
  function LastStartAtMost(ranges: seq<Range>, p: nat, n: nat): (k: nat)
    requires 0 < n <= |ranges| && ranges[0].start <= p
    ensures k < n && ranges[k].start <= p
    ensures forall i :: k < i < n ==> ranges[i].start > p
  {
    if n == 1 || ranges[n - 1].start <= p then n - 1 else LastStartAtMost(ranges, p, n - 1)
  }

  /** `text.get(range)` succeeds: the range is not reversed, ends within the text, and both
      ends are character boundaries (`boundary`, a parameter: the text's bytes are not part
      of the model). */
  predicate Sliceable(textLen: nat, range: Range, boundary: nat -> bool) {
    range.start <= range.end <= textLen && boundary(range.start) && boundary(range.end)
  }

  /** The spans of `shape_text`: `text.get(range).unwrap()` for every range, in order; the
      first range that cannot be sliced panics. */
  function SliceAll(textLen: nat, ranges: seq<Range>, boundary: nat -> bool): (r: Outcome<()>)
    ensures r.Returns? <==> forall i :: 0 <= i < |ranges| ==> Sliceable(textLen, ranges[i], boundary)
    decreases |ranges|
  {
    if ranges == [] then Returns(())
    else if !Sliceable(textLen, ranges[0], boundary) then Panics
    else
      var rest := SliceAll(textLen, ranges[1..], boundary);
      assert forall i :: 1 <= i < |ranges| ==> ranges[1..][i - 1] == ranges[i];
      rest
  }

  /** `shape_text` up to the shaping, which is a parameter: the coverage check comes first,
      and a failed check stops it before anything is shaped; then every range is sliced out
      of the text, and a range that cannot be sliced panics too. */
  function ShapeText<R>(textLen: nat, ranges: seq<Range>, boundary: nat -> bool, shape: (nat, seq<Range>) -> R): (r: Outcome<R>)
    ensures r.Panics? <==>
      (textLen > 0 && !Covers(ranges, textLen)) || exists i :: 0 <= i < |ranges| && !Sliceable(textLen, ranges[i], boundary)
    ensures r.Returns? ==> r.value == shape(textLen, ranges)
  {
    match AssertCoversAllText(ranges, textLen)
    case Panics => Panics
    case Returns(_) =>
      match SliceAll(textLen, ranges, boundary)
      case Panics => Panics
      case Returns(_) => Returns(shape(textLen, ranges))
  }

  /** An attribute on an empty text is not caught by the coverage check, which skips empty
      texts, but its span cannot be sliced. */
  lemma EmptyTextWithAttributePanics<R>(boundary: nat -> bool, shape: (nat, seq<Range>) -> R)
    ensures ShapeText(0, [Range(0, 1)], boundary, shape).Panics?
  {
    assert !Sliceable(0, [Range(0, 1)][0], boundary);
  }
}
