/**
 * Cutting a recording into chunks at its pauses, and giving the clauses of a text without
 * timestamps their share of the frames.
 */
module SpeechAlignment {
  import opened Basics
  import opened SpeechPauses

  const DEFAULT_FPS := 30
  const MAX_CHUNK_FRAMES := 25 * DEFAULT_FPS

  /** Go's integer division by two, which truncates toward zero. */
  function Half(x: int): int { if x >= 0 then x / 2 else -(-x / 2) }

  /** The ranges follow each other without a gap from `lo` to `hi`. */
  ghost predicate Tiles(rs: seq<Range>, lo: int, hi: int) {
    && (if rs == [] then lo == hi else rs[0].start == lo && rs[|rs| - 1].end == hi)
    && forall i :: 0 <= i < |rs| - 1 ==> rs[i].end == rs[i + 1].start
  }

  lemma TilesAppend(rs: seq<Range>, lo: int, mid: int, hi: int)
    requires Tiles(rs, lo, mid)
    ensures Tiles(rs + [Range(mid, hi)], lo, hi)
  {
    var more := rs + [Range(mid, hi)];
    forall i | 0 <= i < |more| - 1 ensures more[i].end == more[i + 1].start {
      if i == |rs| - 1 { assert more[i] == rs[i]; }
    }
  }

  // ---------------------------------------------------------------- chunks

  function Midpoint(p: Pause): int { Half(p.start + p.end) }

  /** The middle is within half a frame of both ends' mean, and inside the pause. */
  lemma MidpointIs(p: Pause)
    ensures -1 <= 2 * Midpoint(p) - (p.start + p.end) <= 1
    ensures p.start <= p.end ==> p.start <= Midpoint(p) <= p.end
  {
  }

  /** The middle of the pause is more than three seconds in and within reach. */
  predicate InReach(p: Pause, start: int, ceiling: int) { start + 3 * DEFAULT_FPS < Midpoint(p) <= ceiling }

  /** The last pause in reach that is listed. */
  predicate LastInReach(pauses: seq<Pause>, i: nat, start: int, ceiling: int)
    requires i < |pauses|
  {
    InReach(pauses[i], start, ceiling) && forall j :: i < j < |pauses| ==> !InReach(pauses[j], start, ceiling)
  }

  /** A chunk ends in the middle of the last listed pause in reach or, if there is none, at its
      ceiling. */
  ghost predicate WellCut(c: Range, pauses: seq<Pause>, ceiling: int) {
    || (exists i :: 0 <= i < |pauses| && LastInReach(pauses, i, c.start, ceiling) && c.end == Midpoint(pauses[i]))
    || (c.end == ceiling && forall i :: 0 <= i < |pauses| ==> !InReach(pauses[i], c.start, ceiling))
  }

  /** One more listed pause: it is taken if it is in reach. */
  lemma AnotherPause(seen: seq<Pause>, p: Pause, start: int, ceiling: int, end: int)
    requires WellCut(Range(start, end), seen, ceiling)
    ensures WellCut(Range(start, if InReach(p, start, ceiling) then Midpoint(p) else end), seen + [p], ceiling)
  {
    var more := seen + [p];
    if InReach(p, start, ceiling) {
      assert LastInReach(more, |seen|, start, ceiling);
    } else if k :| 0 <= k < |seen| && LastInReach(seen, k, start, ceiling) && end == Midpoint(seen[k]) {
      assert LastInReach(more, k, start, ceiling);
    }
  }

  method ChunkEnd(pauses: seq<Pause>, start: int, ceiling: int) returns (end: int)
    requires start < ceiling
    ensures start < end <= ceiling && WellCut(Range(start, end), pauses, ceiling)
  {
    end := ceiling;
    for i := 0 to |pauses|
      invariant start < end <= ceiling && WellCut(Range(start, end), pauses[..i], ceiling)
    {
      var midpoint := Half(pauses[i].start + pauses[i].end);
      assert pauses[..i + 1] == pauses[..i] + [pauses[i]];
      AnotherPause(pauses[..i], pauses[i], start, ceiling, end);
      if midpoint > start + DEFAULT_FPS * 3 && midpoint <= ceiling {
        end := midpoint;
      }
    }
    assert pauses[..|pauses|] == pauses;
  }

  /** The chunks tile the recording; none is empty or longer than the limit, and each ends in the
      last listed pause that it can. */
  method BuildChunks(duration: int, pauses: seq<Pause>, maxFrames: int) returns (chunks: seq<Range>)
    ensures duration <= 0 ==> chunks == []
    ensures duration > 0 ==> Tiles(chunks, 0, duration)
    ensures var limit := if maxFrames <= 0 then MAX_CHUNK_FRAMES else maxFrames;
      forall c :: c in chunks ==>
        0 < c.end - c.start <= limit && WellCut(c, pauses, Min(duration, c.start + limit))
  {
    chunks := [];
    if duration <= 0 {
      return;
    }
    var limit := if maxFrames <= 0 then MAX_CHUNK_FRAMES else maxFrames;
    var start := 0;
    while start < duration
      invariant 0 <= start <= duration && Tiles(chunks, 0, start)
      invariant forall c :: c in chunks ==>
        0 < c.end - c.start <= limit && WellCut(c, pauses, Min(duration, c.start + limit))
      decreases duration - start
    {
      var ceiling := Min(duration, start + limit);
      var end := ChunkEnd(pauses, start, ceiling);
      TilesAppend(chunks, 0, start, end);
      chunks := chunks + [Range(start, end)];
      start := end;
    }
  }

  // ---------------------------------------------------------------- clauses

  /** Where `consumed` of `total` lies between two frames, rounded half up. */
  function Share(start: int, end: int, consumed: nat, total: nat): int
    requires total > 0
  {
    start + (2 * (end - start) * consumed + total) / (2 * total)
  }

  /** The rounded share is within half a frame of the exact fraction. */
  lemma ShareIsNearest(start: int, end: int, consumed: nat, total: nat)
    requires total > 0
    ensures var twice := 2 * total * (Share(start, end, consumed, total) - start) - 2 * ((end - start) * consumed);
      twice <= total && twice + total >= 0
  {
    var x, d := 2 * (end - start) * consumed + total, 2 * total;
    assert 2 * (end - start) * consumed == 2 * ((end - start) * consumed);
    assert x == d * (x / d) + x % d && 0 <= x % d < d;
  }

  function Weight(length: nat): nat { Max(1, length) }

  function TotalWeight(lengths: seq<nat>): (w: nat)
    ensures w >= |lengths|
  {
    if lengths == [] then 0 else TotalWeight(lengths[..|lengths| - 1]) + Weight(lengths[|lengths| - 1])
  }

  /** Where each clause would end by its weight alone. */
  function Shares(lengths: seq<nat>, startFrame: int, endFrame: int): (r: seq<int>)
    requires lengths != []
    ensures |r| == |lengths|
  {
    seq(|lengths|, k requires 0 <= k < |lengths| =>
      Share(startFrame, endFrame, TotalWeight(lengths[..k + 1]), TotalWeight(lengths)))
  }

  /** The ranges tile the frames; a clause but the last has at least one frame, and ends at its
      share of the frames unless it or the clauses behind it need the room. */
  ghost predicate Aligned(rs: seq<Range>, n: nat, shares: seq<int>, startFrame: int, endFrame: int) {
    && |rs| == n > 0 && |shares| == n && Tiles(rs, startFrame, endFrame)
    && forall k :: 0 <= k < n - 1 ==> rs[k].end == Max(rs[k].start + 1, Min(shares[k], endFrame - (n - k - 1)))
  }

  /** The first `i` of `n` clauses have their ranges, up to `cursor`. */
  ghost predicate AlignedSoFar(rs: seq<Range>, i: nat, n: nat, shares: seq<int>, startFrame: int, endFrame: int, cursor: int)
    requires |shares| == n
  {
    && |rs| == i && Tiles(rs, startFrame, cursor) && (i == n ==> cursor == endFrame)
    && forall k :: 0 <= k < i && k < n - 1 ==>
         rs[k].end == Max(rs[k].start + 1, Min(shares[k], endFrame - (n - k - 1)))
  }

  lemma AlignOne(rs: seq<Range>, i: nat, n: nat, shares: seq<int>, startFrame: int, endFrame: int, cursor: int, end: int)
    requires i < n == |shares| && AlignedSoFar(rs, i, n, shares, startFrame, endFrame, cursor)
    requires end == if i + 1 < n then Max(cursor + 1, Min(shares[i], endFrame - (n - i - 1))) else endFrame
    ensures AlignedSoFar(rs + [Range(cursor, end)], i + 1, n, shares, startFrame, endFrame, end)
  {
    TilesAppend(rs, startFrame, cursor, end);
  }

  method TotalOf(lengths: seq<nat>) returns (total: nat)
    ensures total == TotalWeight(lengths)
  {
    total := 0;
    for i := 0 to |lengths|
      invariant total == TotalWeight(lengths[..i])
    {
      assert lengths[..i + 1][..i] == lengths[..i];
      total := total + Weight(lengths[i]);
    }
    assert lengths[..|lengths|] == lengths;
  }

  /** `lengths` are the lengths of the clauses. */
  method AlignClauses(lengths: seq<nat>, startFrame: int, endFrame: int) returns (rs: seq<Range>)
    ensures lengths == [] || endFrame <= startFrame ==> rs == []
    ensures lengths != [] && startFrame < endFrame ==>
      Aligned(rs, |lengths|, Shares(lengths, startFrame, endFrame), startFrame, endFrame)
  {
    rs := [];
    if lengths == [] || endFrame <= startFrame {
      return;
    }
    var total := TotalOf(lengths);
    ghost var shares := Shares(lengths, startFrame, endFrame);
    var cursor, consumed := startFrame, 0;
    for i := 0 to |lengths|
      invariant consumed == TotalWeight(lengths[..i])
      invariant AlignedSoFar(rs, i, |lengths|, shares, startFrame, endFrame, cursor)
    {
      assert lengths[..i + 1][..i] == lengths[..i];
      consumed := consumed + Weight(lengths[i]);
      var end := endFrame;
      if i + 1 < |lengths| {
        end := Share(startFrame, endFrame, consumed, total);
        end := Max(cursor + 1, Min(end, endFrame - (|lengths| - i - 1)));
      }
      AlignOne(rs, i, |lengths|, shares, startFrame, endFrame, cursor, end);
      rs := rs + [Range(cursor, end)];
      cursor := end;
    }
  }

  lemma {:induction false} ClauseStarts(rs: seq<Range>, n: nat, shares: seq<int>, startFrame: int, endFrame: int, k: nat)
    requires Aligned(rs, n, shares, startFrame, endFrame) && k < n
    ensures startFrame + k <= rs[k].start
    ensures n <= endFrame - startFrame ==> rs[k].start <= endFrame - (n - k)
  {
    if k > 0 {
      ClauseStarts(rs, n, shares, startFrame, endFrame, k - 1);
      assert rs[k - 1].end == rs[k].start;
    }
  }

  /** Every clause gets at least one frame, within the chunk, exactly if there are at least as
      many frames as clauses. */
  lemma EveryClauseHasAFrame(rs: seq<Range>, n: nat, shares: seq<int>, startFrame: int, endFrame: int)
    requires Aligned(rs, n, shares, startFrame, endFrame)
    ensures (forall k :: 0 <= k < n ==> startFrame <= rs[k].start < rs[k].end <= endFrame) <==> n <= endFrame - startFrame
  {
    forall k | 0 <= k < n
      ensures startFrame + k <= rs[k].start
      ensures n <= endFrame - startFrame ==> rs[k].start <= endFrame - (n - k)
    {
      ClauseStarts(rs, n, shares, startFrame, endFrame, k);
    }
    if n <= endFrame - startFrame {
      forall k | 0 <= k < n ensures rs[k].end <= endFrame {
        if k < n - 1 { assert rs[k].end == rs[k + 1].start; }
      }
    }
  }
}
