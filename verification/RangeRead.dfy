/** Ranged reads: resolving a byte range (section 14.1.2 of RFC 9110) and mapping it to slices of
    the stored blocks. */
module RangeRead {
  import opened Prelude

  datatype Range = Interval(first: nat, last: Option<nat>) | Suffix(length: nat)

  /** Position i of an object of this size is one the range asks for. */
  predicate Wanted(range: Range, size: nat, i: nat) {
    match range
    case Interval(first, last) => i < size && first <= i && (last.Some? ==> i <= last.value)
    case Suffix(length) => i < size && size <= i + length
  }

  /** Inclusive bounds of the wanted positions; None exactly when no position is wanted. */
  function ResolveRange(range: Range, size: nat): (r: Option<(nat, nat)>)
    ensures r.None? ==> forall i: nat :: !Wanted(range, size, i)
    ensures r.Some? ==> r.value.0 <= r.value.1 < size
    ensures r.Some? ==> forall i: nat :: Wanted(range, size, i) <==> r.value.0 <= i <= r.value.1
  {
    if size == 0 then None
    else match range
      case Interval(first, last) =>
        if first >= size then None
        else
          var end := Min(if last.Some? then last.value else size - 1, size - 1);
          if end < first then None else Some((first, end))
      case Suffix(length) =>
        if length == 0 then None else Some((size - Min(length, size), size - 1))
  }

  /** One block to read: its position, bytes to skip and bytes to take. */
  datatype Slice = Slice(block: nat, skip: nat, take: nat)

  function SliceBytes(data: Bytes, skip: nat, take: Option<nat>): Bytes {
    var rest := data[Min(skip, |data|)..];
    match take
    case Some(t) => rest[..Min(t, |rest|)]
    case None => rest
  }

  /** What streaming a plan over the blocks delivers. */
  function Streamed(blocks: seq<Bytes>, plan: seq<Slice>): Bytes
    requires forall s :: s in plan ==> s.block < |blocks|
  {
    if plan == [] then []
    else var last := plan[|plan| - 1];
         Streamed(blocks, plan[..|plan| - 1]) + SliceBytes(blocks[last.block], last.skip, Some(last.take))
  }

  function TotalTake(plan: seq<Slice>): nat {
    if plan == [] then 0 else TotalTake(plan[..|plan| - 1]) + plan[|plan| - 1].take
  }

  lemma StreamedSnoc(blocks: seq<Bytes>, plan: seq<Slice>, s: Slice)
    requires forall t :: t in plan + [s] ==> t.block < |blocks|
    ensures forall t :: t in plan ==> t in plan + [s]
    ensures Streamed(blocks, plan + [s]) ==
            Streamed(blocks, plan) + SliceBytes(blocks[s.block], s.skip, Some(s.take))
    ensures TotalTake(plan + [s]) == TotalTake(plan) + s.take
  {
    assert (plan + [s])[..|plan|] == plan;
    assert s in plan + [s];
  }

  function Clamp(n: int, max: nat): nat {
    Max(0, Min(n, max))
  }

  /** The positions of s from `from` up to `to`, so far as they exist. */
  function Clip(s: Bytes, from: int, to: int): Bytes
    requires from <= to
  {
    s[Clamp(from, |s|)..Clamp(to, |s|)]
  }

  lemma ClipAppend(a: Bytes, b: Bytes, from: int, to: int)
    requires from <= to
    ensures Clip(a + b, from, to) == Clip(a, from, to) + Clip(b, from - |a|, to - |a|)
  {
    var x, y, z := Clip(a + b, from, to), Clip(a, from, to), Clip(b, from - |a|, to - |a|);
    assert |x| == |y| + |z|;
    forall i | 0 <= i < |x| ensures x[i] == (y + z)[i] {
      assert x[i] == (a + b)[Clamp(from, |a| + |b|) + i];
      if i < |y| {
        assert y[i] == a[Clamp(from, |a|) + i];
      } else {
        assert z[i - |y|] == b[Clamp(from - |a|, |b|) + i - |y|];
      }
    }
  }

  /** The bytes of [start, end] that exist. */
  function Window(flat: Bytes, start: nat, end: nat): Bytes
    requires start <= end
  {
    Clip(flat, start, end + 1)
  }

  /** The part of the block at offset `at` that lies in [start, end]. */
  function Overlap(block: Bytes, at: nat, start: nat, end: nat): Bytes
    requires start <= end
  {
    Clip(block, start - at, end + 1 - at)
  }

  function Length(size: int): nat {
    if size < 0 then 0 else size
  }

  lemma OverlapIsSlice(block: Bytes, at: nat, start: nat, end: nat, skip: nat, take: nat)
    requires start <= end && block != [] && start < at + |block| && at <= end
    requires skip == Max(start, at) - at && skip + take == Min(end, at + |block| - 1) - at + 1
    ensures SliceBytes(block, skip, Some(take)) == Overlap(block, at, start, end)
  {
  }

  /** The overlaps of the first i blocks, one after another. */
  function Overlaps(blocks: seq<Bytes>, i: nat, start: nat, end: nat): Bytes
    requires i <= |blocks| && start <= end
  {
    if i == 0 then []
    else Overlaps(blocks, i - 1, start, end) + Overlap(blocks[i - 1], |Flatten(blocks[..i - 1])|, start, end)
  }

  lemma {:induction false} OverlapsAreTheWindow(blocks: seq<Bytes>, i: nat, start: nat, end: nat)
    requires i <= |blocks| && start <= end
    ensures Overlaps(blocks, i, start, end) == Window(Flatten(blocks[..i]), start, end)
  {
    if i != 0 {
      OverlapsAreTheWindow(blocks, i - 1, start, end);
      FlattenUpTo(blocks, i - 1);
      ClipAppend(Flatten(blocks[..i - 1]), blocks[i - 1], start, end + 1);
    }
  }

  ghost predicate WellPlanned(blocks: seq<Bytes>, plan: seq<Slice>, i: nat) {
    && i <= |blocks|
    && (forall s :: s in plan ==> s.block < i && 0 < s.take && s.skip + s.take <= |blocks[s.block]|)
    && (forall j, k :: 0 <= j < k < |plan| ==> plan[j].block < plan[k].block)
  }

  /** The announced content length is what the plan streams. */
  lemma {:induction false} TakesAddUp(blocks: seq<Bytes>, plan: seq<Slice>, i: nat)
    requires WellPlanned(blocks, plan, i)
    ensures TotalTake(plan) == |Streamed(blocks, plan)|
  {
    if plan != [] {
      assert plan[|plan| - 1] in plan;
      TakesAddUp(blocks, plan[..|plan| - 1], i);
    }
  }

  lemma WellPlannedSnoc(blocks: seq<Bytes>, plan: seq<Slice>, i: nat, slice: Slice)
    requires i < |blocks| && WellPlanned(blocks, plan, i)
    requires slice.block == i && 0 < slice.take && slice.skip + slice.take <= |blocks[i]|
    ensures WellPlanned(blocks, plan + [slice], i + 1)
  {
    forall j | 0 <= j < |plan| ensures plan[j].block < i {
      assert plan[j] in plan;
    }
  }

  /** One more slice streams one more block's part of the range. */
  lemma SliceStreams(blocks: seq<Bytes>, plan: seq<Slice>, slice: Slice, done: Bytes, part: Bytes)
    requires slice.block < |blocks| && WellPlanned(blocks, plan, slice.block)
    requires 0 < slice.take && slice.skip + slice.take <= |blocks[slice.block]|
    requires Streamed(blocks, plan) == done && SliceBytes(blocks[slice.block], slice.skip, Some(slice.take)) == part
    ensures WellPlanned(blocks, plan + [slice], slice.block + 1)
    ensures Streamed(blocks, plan + [slice]) == done + part
  {
    WellPlannedSnoc(blocks, plan, slice.block, slice);
    StreamedSnoc(blocks, plan, slice);
  }

  /** Block j holds position `at` of the joined blocks. */
  ghost predicate HoldsPosition(blocks: seq<Bytes>, j: nat, at: nat) {
    j < |blocks| && |Flatten(blocks[..j])| <= at < |Flatten(blocks[..j + 1])|
  }

  /** The plan starts once the blocks before `offset` reach past the start, in the block that holds it. */
  ghost predicate PlanStarts(blocks: seq<Bytes>, plan: seq<Slice>, offset: nat, start: nat) {
    (plan == [] <==> offset <= start) && (plan != [] ==> HoldsPosition(blocks, plan[0].block, start))
  }

  /** The slice of one block, if the block overlaps the range. */
  method SliceOne(size: nat, offset: nat, start: nat, end: nat, plan: seq<Slice>, i: nat, ghost blocks: seq<Bytes>)
    returns (plan': seq<Slice>)
    requires i < |blocks| && WellPlanned(blocks, plan, i) && start <= end && size == |blocks[i]|
    requires offset == |Flatten(blocks[..i])| && offset + size == |Flatten(blocks[..i + 1])|
    requires PlanStarts(blocks, plan, offset, start)
    ensures WellPlanned(blocks, plan', i + 1) && PlanStarts(blocks, plan', offset + size, start)
    ensures Streamed(blocks, plan') == Streamed(blocks, plan) + Overlap(blocks[i], offset, start, end)
  {
    var blockEnd := offset + size;
    if size == 0 || blockEnd <= start || end < offset {
      return plan;
    }
    var skip := Max(start, offset) - offset;
    var stop := Min(end, blockEnd - 1) - offset;
    OverlapIsSlice(blocks[i], offset, start, end, skip, stop - skip + 1);
    SliceStreams(blocks, plan, Slice(i, skip, stop - skip + 1), Streamed(blocks, plan),
                 Overlap(blocks[i], offset, start, end));
    plan' := plan + [Slice(i, skip, stop - skip + 1)];
  }

  /** The blocks that overlap the range, in order, for blocks of the given recorded sizes: the
      streamed slices are exactly the bytes of the range that exist, and no slice is empty. */
  method SliceBlocksForRange(sizes: seq<int>, start: nat, end: nat, ghost blocks: seq<Bytes>) returns (plan: seq<Slice>)
    requires start <= end
    requires |blocks| == |sizes| && forall i :: 0 <= i < |sizes| ==> |blocks[i]| == Length(sizes[i])
    ensures WellPlanned(blocks, plan, |blocks|)
    ensures Streamed(blocks, plan) == Window(Flatten(blocks), start, end)
    ensures TotalTake(plan) == |Streamed(blocks, plan)|
    ensures plan == [] <==> |Flatten(blocks)| <= start
    ensures plan != [] ==> HoldsPosition(blocks, plan[0].block, start)
  {
    plan := [];
    var offset := 0;
    var i := 0;
    while i < |sizes|
      invariant 0 <= i <= |sizes| && offset == |Flatten(blocks[..i])|
      invariant WellPlanned(blocks, plan, i) && Streamed(blocks, plan) == Overlaps(blocks, i, start, end)
      invariant PlanStarts(blocks, plan, offset, start)
    {
      FlattenUpTo(blocks, i);
      var size := Length(sizes[i]);
      plan := SliceOne(size, offset, start, end, plan, i, blocks);
      offset := offset + size;
      i := i + 1;
    }
    TakesAddUp(blocks, plan, i);
    assert blocks[..i] == blocks;
    OverlapsAreTheWindow(blocks, i, start, end);
  }
}
