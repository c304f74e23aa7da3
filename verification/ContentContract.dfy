/**
 * Deciding whether the timeline covers what the content plan asks for: B-roll ranges by
 * overlay clips, utterances by chains of clips that play the source without a gap.
 */
module ContentContract {
  import opened Basics
  import opened Sorting

  datatype Clip = Clip(asset: string, sourceStart: int, sourceEnd: int, start: int, end: int, rate: real)
  datatype Track = Track(id: string, muted: bool, clips: seq<Clip>)

  // ---------------------------------------------------------------- B-roll

  function Overlays(tracks: seq<Track>): seq<Clip> {
    if tracks == [] then []
    else (if tracks[0].id == "visual_overlay" && !tracks[0].muted then tracks[0].clips else []) + Overlays(tracks[1..])
  }

  /** Some clip of an overlay track that is not muted shows frame `f`. */
  ghost predicate Overlaid(tracks: seq<Track>, f: int) {
    exists t, c :: t in tracks && t.id == "visual_overlay" && !t.muted && c in t.clips && c.start <= f < c.end
  }

  lemma {:induction false} OverlaysAre(tracks: seq<Track>, c: Clip)
    ensures c in Overlays(tracks) <==> exists t :: t in tracks && t.id == "visual_overlay" && !t.muted && c in t.clips
  {
    if tracks != [] {
      OverlaysAre(tracks[1..], c);
      assert forall t :: t in tracks <==> t == tracks[0] || t in tracks[1..];
    }
  }

  lemma OverlaysShow(tracks: seq<Track>, f: int)
    ensures Shown(Overlays(tracks), f) <==> Overlaid(tracks, f)
  {
    var clips := Overlays(tracks);
    if i :| 0 <= i < |clips| && clips[i].start <= f < clips[i].end {
      OverlaysAre(tracks, clips[i]);
      assert clips[i] in clips;
    }
    if t, c :| t in tracks && t.id == "visual_overlay" && !t.muted && c in t.clips && c.start <= f < c.end {
      OverlaysAre(tracks, c);
      var i :| 0 <= i < |clips| && clips[i] == c;
    }
  }

  ghost predicate Shown(clips: seq<Clip>, f: int) { exists i :: 0 <= i < |clips| && clips[i].start <= f < clips[i].end }

  /** Some frame of the range lies in no overlay clip. */
  ghost predicate Uncovered(clips: seq<Clip>, r: Range) { exists f :: r.start <= f < r.end && !Shown(clips, f) }

  /** How far the clips that have begun by `cursor` reach. */
  method Furthest(clips: seq<Clip>, cursor: int) returns (furthest: int)
    ensures furthest >= cursor && forall f :: cursor <= f < furthest ==> Shown(clips, f)
    ensures furthest == cursor ==> !Shown(clips, cursor)
  {
    furthest := cursor;
    for i := 0 to |clips|
      invariant furthest >= cursor && forall f :: cursor <= f < furthest ==> Shown(clips, f)
      invariant furthest == cursor ==> forall j :: 0 <= j < i ==> !(clips[j].start <= cursor < clips[j].end)
    {
      if clips[i].start <= cursor && clips[i].end > furthest {
        furthest := clips[i].end;
      }
    }
  }

  /** The inner loop: it moves the cursor to the first frame that is not shown, or past the range. */
  method HasGap(clips: seq<Clip>, r: Range) returns (gap: bool)
    ensures gap <==> Uncovered(clips, r)
  {
    var cursor := r.start;
    while cursor < r.end
      invariant cursor >= r.start && forall f :: r.start <= f < cursor ==> Shown(clips, f)
      decreases r.end - cursor
    {
      var furthest := Furthest(clips, cursor);
      if furthest == cursor {
        return true;
      }
      cursor := furthest;
    }
    gap := false;
  }

  /** The reported ranges are those of the required ones, in order, that are not covered. */
  ghost function UncoveredOnes(clips: seq<Clip>, required: seq<Range>): seq<Range> {
    if required == [] then []
    else
      var rest := UncoveredOnes(clips, required[..|required| - 1]);
      if Uncovered(clips, required[|required| - 1]) then rest + [required[|required| - 1]] else rest
  }

  method UncoveredBrollRanges(tracks: seq<Track>, required: seq<Range>) returns (uncovered: seq<Range>)
    ensures uncovered == UncoveredOnes(Overlays(tracks), required)
    ensures forall r :: r in uncovered <==> r in required && exists f :: r.start <= f < r.end && !Overlaid(tracks, f)
  {
    forall r ensures Uncovered(Overlays(tracks), r) <==> exists f :: r.start <= f < r.end && !Overlaid(tracks, f) {
      forall f ensures Shown(Overlays(tracks), f) <==> Overlaid(tracks, f) { OverlaysShow(tracks, f); }
    }
    var overlays := Overlays(tracks);
    uncovered := [];
    for i := 0 to |required|
      invariant uncovered == UncoveredOnes(overlays, required[..i])
      invariant forall r :: r in uncovered <==> r in required[..i] && Uncovered(overlays, r)
    {
      assert required[..i + 1][..i] == required[..i];
      var gap := HasGap(overlays, required[i]);
      if gap {
        uncovered := uncovered + [required[i]];
      }
    }
    assert required[..|required|] == required;
  }

  // ---------------------------------------------------------------- utterances

  function Abs(x: real): real { if x < 0.0 then -x else x }

  function PlaybackRate(c: Clip): real { if c.rate > 0.0 then c.rate else 1.0 }

  /** The clip plays its source at its rate, up to a frame. */
  predicate PreservesTiming(c: Clip) {
    && c.sourceStart < c.sourceEnd && c.start < c.end && c.rate >= 0.0
    && Abs((c.sourceEnd - c.sourceStart) as real - (c.end - c.start) as real * PlaybackRate(c)) <= 1.0
  }

  predicate Candidate(c: Clip, asset: string, start: int, end: int) {
    c.asset == asset && c.sourceEnd > start && c.sourceStart < end && PreservesTiming(c)
  }

  function Candidates(clips: seq<Clip>, asset: string, start: int, end: int): seq<Clip> {
    if clips == [] then []
    else (if Candidate(clips[0], asset, start, end) then [clips[0]] else []) + Candidates(clips[1..], asset, start, end)
  }

  predicate ClipLess(a: Clip, b: Clip) {
    if a.start != b.start then a.start < b.start else a.sourceStart < b.sourceStart
  }

  predicate SameRate(c: Clip, rate: real) { Abs(PlaybackRate(c) - rate) <= 0.000001 }

  /** `next` goes on where `previous` ends, in the source and on the timeline. */
  predicate Continues(previous: Clip, next: Clip, rate: real) {
    && previous.asset != "" && previous.asset == next.asset && previous.sourceEnd == next.sourceStart
    && next.start == previous.end && SameRate(next, rate)
  }

  /** A contiguous chain of candidates at one rate that covers start..end of the source. */
  ghost predicate Chain(chain: seq<Clip>, candidates: seq<Clip>, start: int, end: int) {
    && chain != [] && chain[0].sourceStart <= start < chain[0].sourceEnd
    && chain[|chain| - 1].sourceEnd >= end
    && (forall i :: 0 <= i < |chain| ==> chain[i] in candidates)
    && forall i :: 0 < i < |chain| ==> Continues(chain[i - 1], chain[i], PlaybackRate(chain[0]))
  }

  /** The inner loop: it takes every continuation it meets. */
  predicate Follow(s: seq<Clip>, next: nat, previous: Clip, rate: real, end: int)
    decreases |s| - next
  {
    if next >= |s| then false
    else if !Continues(previous, s[next], rate) then Follow(s, next + 1, previous, rate, end)
    else s[next].sourceEnd >= end || Follow(s, next + 1, s[next], rate, end)
  }

  predicate StartsAt(s: seq<Clip>, i: nat, start: int, end: int)
    requires i < |s|
  {
    && s[i].sourceStart <= start < s[i].sourceEnd
    && (s[i].sourceEnd >= end || Follow(s, i + 1, s[i], PlaybackRate(s[i]), end))
  }

  ghost predicate Greedy(s: seq<Clip>, start: int, end: int) { exists i :: 0 <= i < |s| && StartsAt(s, i, start, end) }

  function InOrder(clips: seq<Clip>, asset: string, start: int, end: int): seq<Clip> {
    StableSort(Candidates(clips, asset, start, end), ClipLess)
  }

  ghost predicate CoveredBy(clips: seq<Clip>, asset: string, start: int, end: int) {
    asset != "" && start < end && Greedy(InOrder(clips, asset, start, end), start, end)
  }

  method UtteranceCoveredByClips(clips: seq<Clip>, asset: string, start: int, end: int) returns (covered: bool)
    ensures covered <==> CoveredBy(clips, asset, start, end)
  {
    if asset == "" || end <= start {
      return false;
    }
    var s := InOrder(clips, asset, start, end);
    for index := 0 to |s|
      invariant forall i :: 0 <= i < index ==> !StartsAt(s, i, start, end)
    {
      if s[index].sourceStart > start || s[index].sourceEnd <= start {
        continue;
      }
      var previous := s[index];
      var rate := PlaybackRate(previous);
      if previous.sourceEnd >= end {
        assert StartsAt(s, index, start, end);
        return true;
      }
      var next := index + 1;
      while next < |s|
        invariant index < next <= |s|
        invariant Follow(s, next, previous, rate, end) == Follow(s, index + 1, s[index], rate, end)
      {
        if !Continues(previous, s[next], rate) {
          next := next + 1;
          continue;
        }
        previous := s[next];
        next := next + 1;
        if previous.sourceEnd >= end {
          assert StartsAt(s, index, start, end);
          return true;
        }
      }
    }
    covered := false;
  }

  /** `c` is the first of the candidates, in their order, that continues `previous`. */
  ghost predicate IsFirst(s: seq<Clip>, previous: Clip, c: Clip, rate: real) {
    exists j :: 0 <= j < |s| && s[j] == c && FirstAt(s, j, previous, rate)
  }

  predicate FirstAt(s: seq<Clip>, j: nat, previous: Clip, rate: real)
    requires j < |s|
  {
    Continues(previous, s[j], rate) && forall i :: 0 <= i < j ==> !Continues(previous, s[i], rate)
  }

  /** Every link up to the `k`-th goes to the first continuation there is. */
  ghost predicate TakesFirst(s: seq<Clip>, chain: seq<Clip>, k: nat)
    requires k < |chain|
  {
    forall i :: 0 < i <= k ==> IsFirst(s, chain[i - 1], chain[i], PlaybackRate(chain[0]))
  }

  /** A chain that always goes on with the first continuation. */
  ghost predicate FirstChain(chain: seq<Clip>, s: seq<Clip>, start: int, end: int) {
    Chain(chain, s, start, end) && TakesFirst(s, chain, |chain| - 1)
  }

  ghost predicate InSearchOrder(s: seq<Clip>) {
    Sorted(s, ClipLess) && forall i :: 0 <= i < |s| ==> s[i].start < s[i].end
  }

  /** Clip `c` comes before anything that could continue `previous`. */
  predicate ComesBefore(c: Clip, previous: Clip) {
    c.start < previous.end || (c.start == previous.end && c.sourceStart < previous.sourceEnd)
  }

  lemma AllComeBefore(s: seq<Clip>, n: nat)
    requires InSearchOrder(s) && n < |s|
    ensures forall i :: 0 <= i <= n ==> ComesBefore(s[i], s[n])
  {
    forall i | 0 <= i <= n ensures ComesBefore(s[i], s[n]) {
      assert i < n ==> !ClipLess(s[n], s[i]);
    }
  }

  /** A chain of first continuations that may still go on. */
  ghost predicate Prefix(chain: seq<Clip>, s: seq<Clip>, start: int) {
    && chain != [] && chain[0].sourceStart <= start < chain[0].sourceEnd
    && (forall i :: 0 <= i < |chain| ==> chain[i] in s)
    && (forall i :: 0 < i < |chain| ==> Continues(chain[i - 1], chain[i], PlaybackRate(chain[0])))
    && TakesFirst(s, chain, |chain| - 1)
  }

  lemma PrefixGrows(chain: seq<Clip>, s: seq<Clip>, start: int, j: nat)
    requires Prefix(chain, s, start) && j < |s| && FirstAt(s, j, chain[|chain| - 1], PlaybackRate(chain[0]))
    ensures Prefix(chain + [s[j]], s, start)
  {
    var longer := chain + [s[j]];
    forall i | 0 < i <= |chain| ensures IsFirst(s, longer[i - 1], longer[i], PlaybackRate(longer[0])) {
      if i < |chain| {
        assert IsFirst(s, chain[i - 1], chain[i], PlaybackRate(chain[0]));
      }
    }
  }

  lemma {:induction false} FollowIsChain(s: seq<Clip>, next: nat, chain: seq<Clip>, start: int, end: int)
    returns (full: seq<Clip>)
    requires InSearchOrder(s) && Prefix(chain, s, start) && next <= |s|
    requires forall i :: 0 <= i < next ==> !Continues(chain[|chain| - 1], s[i], PlaybackRate(chain[0]))
    requires Follow(s, next, chain[|chain| - 1], PlaybackRate(chain[0]), end)
    ensures FirstChain(full, s, start, end)
    decreases |s| - next
  {
    if !Continues(chain[|chain| - 1], s[next], PlaybackRate(chain[0])) {
      full := FollowIsChain(s, next + 1, chain, start, end);
    } else {
      PrefixGrows(chain, s, start, next);
      full := chain + [s[next]];
      if s[next].sourceEnd < end {
        AllComeBefore(s, next);
        full := FollowIsChain(s, next + 1, full, start, end);
      }
    }
  }

  lemma GreedyIsSound(s: seq<Clip>, start: int, end: int) returns (chain: seq<Clip>)
    requires InSearchOrder(s) && Greedy(s, start, end)
    ensures FirstChain(chain, s, start, end)
  {
    var i :| 0 <= i < |s| && StartsAt(s, i, start, end);
    if s[i].sourceEnd >= end {
      chain := [s[i]];
    } else {
      AllComeBefore(s, i);
      chain := FollowIsChain(s, i + 1, [s[i]], start, end);
    }
  }

  lemma FirstLink(s: seq<Clip>, chain: seq<Clip>, k: nat, start: int, end: int) returns (j: nat)
    requires FirstChain(chain, s, start, end) && k + 1 < |chain|
    ensures j < |s| && s[j] == chain[k + 1] && FirstAt(s, j, chain[k], PlaybackRate(chain[0]))
  {
    assert IsFirst(s, chain[k], chain[k + 1], PlaybackRate(chain[0]));
    j :| 0 <= j < |s| && s[j] == chain[k + 1] && FirstAt(s, j, chain[k], PlaybackRate(chain[0]));
  }

  /** The search goes along every chain of first continuations. */
  lemma {:induction false} FollowIsComplete(s: seq<Clip>, next: nat, chain: seq<Clip>, k: nat, start: int, end: int)
    requires InSearchOrder(s) && FirstChain(chain, s, start, end) && k < |chain| && next <= |s|
    requires forall i :: 0 <= i < next ==> !Continues(chain[k], s[i], PlaybackRate(chain[0]))
    requires chain[k].sourceEnd < end
    ensures Follow(s, next, chain[k], PlaybackRate(chain[0]), end)
    decreases |s| - next
  {
    var rate := PlaybackRate(chain[0]);
    var j := FirstLink(s, chain, k, start, end);
    assert next <= j;
    if !Continues(chain[k], s[next], rate) {
      FollowIsComplete(s, next + 1, chain, k, start, end);
      return;
    }
    assert s[next] == chain[k + 1];
    if s[next].sourceEnd < end {
      AllComeBefore(s, next);
      FollowIsComplete(s, next + 1, chain, k + 1, start, end);
    }
  }

  lemma GreedyIsComplete(s: seq<Clip>, start: int, end: int, chain: seq<Clip>)
    requires InSearchOrder(s) && FirstChain(chain, s, start, end)
    ensures Greedy(s, start, end)
  {
    var i :| 0 <= i < |s| && s[i] == chain[0];
    if s[i].sourceEnd < end {
      AllComeBefore(s, i);
      FollowIsComplete(s, i + 1, chain, 0, start, end);
    }
    assert StartsAt(s, i, start, end);
  }

  predicate Forks(previous: Clip, a: Clip, b: Clip, rate: real) {
    Continues(previous, a, rate) && Continues(previous, b, rate) && !(a.end == b.end && a.sourceEnd == b.sourceEnd)
  }

  /** Where a clip can go on in two ways, both ways end at the same place. */
  ghost predicate NoFork(s: seq<Clip>) {
    forall r, p, a, b :: r in s && p in s && a in s && b in s ==> !Forks(p, a, b, PlaybackRate(r))
  }

  lemma {:induction false} FirstIndex(s: seq<Clip>, previous: Clip, rate: real, n: nat) returns (j: nat)
    requires n < |s| && Continues(previous, s[n], rate)
    ensures j < |s| && FirstAt(s, j, previous, rate)
  {
    if i :| 0 <= i < n && Continues(previous, s[i], rate) {
      j := FirstIndex(s, previous, rate, i);
    } else {
      j := n;
    }
  }

  /** A link can be replaced by one that ends at the same place. */
  lemma Relink(chain: seq<Clip>, s: seq<Clip>, start: int, end: int, k: nat, c: Clip)
    requires Chain(chain, s, start, end) && 0 < k < |chain| && c in s
    requires Continues(chain[k - 1], c, PlaybackRate(chain[0]))
    requires c.end == chain[k].end && c.sourceEnd == chain[k].sourceEnd
    ensures Chain(chain[k := c], s, start, end)
  {
    assert Continues(chain[k - 1], chain[k], PlaybackRate(chain[0]));
  }

  lemma RelinkFirst(chain: seq<Clip>, s: seq<Clip>, k: nat, c: Clip)
    requires 0 < k < |chain| && TakesFirst(s, chain, k - 1) && IsFirst(s, chain[k - 1], c, PlaybackRate(chain[0]))
    ensures TakesFirst(s, chain[k := c], k)
  {
  }

  /** Without a fork the first continuation can take the place of any other. */
  lemma FirstInstead(chain: seq<Clip>, s: seq<Clip>, start: int, end: int, k: nat) returns (c: Clip)
    requires NoFork(s) && Chain(chain, s, start, end) && 0 < k < |chain|
    ensures IsFirst(s, chain[k - 1], c, PlaybackRate(chain[0])) && Chain(chain[k := c], s, start, end)
  {
    var rate := PlaybackRate(chain[0]);
    assert Continues(chain[k - 1], chain[k], rate);
    var n :| 0 <= n < |s| && s[n] == chain[k];
    var j := FirstIndex(s, chain[k - 1], rate, n);
    c := s[j];
    var r, p, b := chain[0], chain[k - 1], chain[k];
    assert r in s && p in s && b in s && c in s;
    assert !Forks(p, c, b, PlaybackRate(r));
    Relink(chain, s, start, end, k, c);
  }

  /** Without a fork every chain turns into one of first continuations. */
  lemma {:induction false} Straighten(chain: seq<Clip>, s: seq<Clip>, start: int, end: int, k: nat) returns (r: seq<Clip>)
    requires NoFork(s) && Chain(chain, s, start, end) && k < |chain| && TakesFirst(s, chain, k)
    ensures FirstChain(r, s, start, end)
    decreases |chain| - k
  {
    if k == |chain| - 1 {
      return chain;
    }
    var c := FirstInstead(chain, s, start, end, k + 1);
    RelinkFirst(chain, s, k + 1, c);
    r := Straighten(chain[k + 1 := c], s, start, end, k + 1);
  }

  lemma {:induction false} CandidatesAre(clips: seq<Clip>, asset: string, start: int, end: int, c: Clip)
    ensures c in Candidates(clips, asset, start, end) <==> c in clips && Candidate(c, asset, start, end)
  {
    if clips != [] {
      CandidatesAre(clips[1..], asset, start, end, c);
    }
  }

  /** The utterance is covered: there is a contiguous chain of its candidate clips. */
  ghost predicate Covered(clips: seq<Clip>, asset: string, start: int, end: int) {
    exists chain :: Chain(chain, Candidates(clips, asset, start, end), start, end)
  }

  lemma ClipLessIsWeakOrder()
    ensures WeakOrder(ClipLess)
  {
  }

  lemma ChainSame(chain: seq<Clip>, a: seq<Clip>, b: seq<Clip>, start: int, end: int)
    requires Chain(chain, a, start, end) && forall c :: c in a ==> c in b
    ensures Chain(chain, b, start, end)
  {
  }

  lemma SearchOrder(clips: seq<Clip>, asset: string, start: int, end: int)
    ensures InSearchOrder(InOrder(clips, asset, start, end))
    ensures forall c :: c in InOrder(clips, asset, start, end) <==> c in Candidates(clips, asset, start, end)
  {
    var candidates, s := Candidates(clips, asset, start, end), InOrder(clips, asset, start, end);
    SortKeepsElements(candidates, ClipLess);
    ClipLessIsWeakOrder();
    SortSorts(candidates, ClipLess);
    forall i | 0 <= i < |s| ensures s[i].start < s[i].end {
      assert s[i] in s;
      CandidatesAre(clips, asset, start, end, s[i]);
    }
  }

  /** The answer is positive exactly if some chain always goes on with the first continuation. */
  lemma CoverageFollowsFirst(clips: seq<Clip>, asset: string, start: int, end: int)
    requires asset != "" && start < end
    ensures CoveredBy(clips, asset, start, end)
      <==> exists chain :: FirstChain(chain, InOrder(clips, asset, start, end), start, end)
  {
    var s := InOrder(clips, asset, start, end);
    SearchOrder(clips, asset, start, end);
    if CoveredBy(clips, asset, start, end) {
      var chain := GreedyIsSound(s, start, end);
    }
    if chain :| FirstChain(chain, s, start, end) {
      GreedyIsComplete(s, start, end, chain);
    }
  }

  /** A positive answer is right. */
  lemma CoverageIsSound(clips: seq<Clip>, asset: string, start: int, end: int)
    requires CoveredBy(clips, asset, start, end)
    ensures Covered(clips, asset, start, end)
  {
    CoverageFollowsFirst(clips, asset, start, end);
    SearchOrder(clips, asset, start, end);
    var chain :| FirstChain(chain, InOrder(clips, asset, start, end), start, end);
    ChainSame(chain, InOrder(clips, asset, start, end), Candidates(clips, asset, start, end), start, end);
  }

  /** Every answer is right when no candidate can go on to two different places. */
  lemma CoverageIsExact(clips: seq<Clip>, asset: string, start: int, end: int)
    requires asset != "" && start < end && NoFork(Candidates(clips, asset, start, end))
    ensures CoveredBy(clips, asset, start, end) <==> Covered(clips, asset, start, end)
  {
    if CoveredBy(clips, asset, start, end) {
      CoverageIsSound(clips, asset, start, end);
    }
    if Covered(clips, asset, start, end) {
      var s := InOrder(clips, asset, start, end);
      SearchOrder(clips, asset, start, end);
      var chain :| Chain(chain, Candidates(clips, asset, start, end), start, end);
      ChainSame(chain, Candidates(clips, asset, start, end), s, start, end);
      var first := Straighten(chain, s, start, end, 0);
      CoverageFollowsFirst(clips, asset, start, end);
    }
  }

  // ---------------------------------------------------------------- chains of any clips

  /** A chain of clips of the asset, each playing its source at its rate, that covers start..end. */
  ghost predicate Plays(chain: seq<Clip>, clips: seq<Clip>, asset: string, start: int, end: int) {
    && chain != [] && chain[0].sourceStart <= start < chain[0].sourceEnd && chain[|chain| - 1].sourceEnd >= end
    && (forall i :: 0 <= i < |chain| ==> chain[i] in clips && chain[i].asset == asset && PreservesTiming(chain[i]))
    && forall i :: 0 < i < |chain| ==>
         && chain[i - 1].sourceEnd == chain[i].sourceStart && chain[i - 1].end == chain[i].start
         && SameRate(chain[i], PlaybackRate(chain[0]))
  }

  /** It can be cut off behind the first clip that reaches the end; then it is made of candidates. */
  lemma {:induction false} CutChain(chain: seq<Clip>, clips: seq<Clip>, asset: string, start: int, end: int, n: nat)
    returns (short: seq<Clip>)
    requires asset != "" && start < end && Plays(chain, clips, asset, start, end) && 0 < n <= |chain|
    requires forall i :: 0 <= i < n ==> Candidate(chain[i], asset, start, end)
    requires forall i :: 0 <= i < n - 1 ==> chain[i].sourceEnd < end
    ensures Chain(short, Candidates(clips, asset, start, end), start, end)
    decreases |chain| - n
  {
    if chain[n - 1].sourceEnd >= end {
      short := chain[..n];
      forall i | 0 <= i < n ensures short[i] in Candidates(clips, asset, start, end) {
        CandidatesAre(clips, asset, start, end, chain[i]);
      }
    } else {
      Upward(chain, clips, asset, start, end, n - 1);
      short := CutChain(chain, clips, asset, start, end, n + 1);
    }
  }

  lemma {:induction false} Upward(chain: seq<Clip>, clips: seq<Clip>, asset: string, start: int, end: int, i: nat)
    requires Plays(chain, clips, asset, start, end) && i < |chain|
    ensures start < chain[i].sourceEnd
  {
    if i > 0 {
      Upward(chain, clips, asset, start, end, i - 1);
      assert chain[i - 1].sourceEnd == chain[i].sourceStart;
    }
  }

  /** The utterance is covered exactly if some chain of any of the clips plays it. */
  lemma CoveredMeans(clips: seq<Clip>, asset: string, start: int, end: int)
    requires asset != "" && start < end
    ensures Covered(clips, asset, start, end) <==> exists chain: seq<Clip> :: Plays(chain, clips, asset, start, end)
  {
    var candidates := Candidates(clips, asset, start, end);
    if chain: seq<Clip> :| Chain(chain, candidates, start, end) {
      forall i | 0 <= i < |chain| ensures chain[i] in clips && Candidate(chain[i], asset, start, end) {
        CandidatesAre(clips, asset, start, end, chain[i]);
      }
      forall i | 0 < i < |chain|
        ensures chain[i - 1].sourceEnd == chain[i].sourceStart && chain[i - 1].end == chain[i].start
        ensures SameRate(chain[i], PlaybackRate(chain[0]))
      {
        assert Continues(chain[i - 1], chain[i], PlaybackRate(chain[0]));
      }
      assert Plays(chain, clips, asset, start, end);
    }
    if chain: seq<Clip> :| Plays(chain, clips, asset, start, end) {
      var short := CutChain(chain, clips, asset, start, end, 1);
    }
  }

  /** Every frame of a covered utterance is played by some clip of its asset. */
  lemma {:induction false} FramePlayed(chain: seq<Clip>, clips: seq<Clip>, asset: string, start: int, end: int, f: int, n: nat)
    returns (c: Clip)
    requires Plays(chain, clips, asset, start, end) && start <= f < end && n < |chain| && chain[n].sourceStart <= f
    ensures c in clips && c.asset == asset && c.sourceStart <= f < c.sourceEnd
    decreases |chain| - n
  {
    if f < chain[n].sourceEnd {
      c := chain[n];
    } else {
      c := FramePlayed(chain, clips, asset, start, end, f, n + 1);
    }
  }

  const FIRST: Clip := Clip("a", 0, 10, 0, 10, 1.0)
  const SHORT: Clip := Clip("a", 10, 20, 10, 20, 1.0)
  const LONG: Clip := Clip("a", 10, 30, 10, 30, 1.0)

  lemma OneCandidate(c: Clip, rest: seq<Clip>)
    requires Candidate(c, "a", 0, 30)
    ensures Candidates([c] + rest, "a", 0, 30) == [c] + Candidates(rest, "a", 0, 30)
  {
    assert ([c] + rest)[1..] == rest;
  }

  lemma ForkedCandidates(c: Clip, d: Clip)
    requires {c, d} == {SHORT, LONG}
    ensures Candidates([FIRST, c, d], "a", 0, 30) == [FIRST, c, d]
    ensures InOrder([FIRST, c, d], "a", 0, 30) == [FIRST, c, d]
  {
    assert c in {SHORT, LONG} && d in {SHORT, LONG};
    assert PreservesTiming(FIRST) && PreservesTiming(SHORT) && PreservesTiming(LONG);
    OneCandidate(FIRST, [c, d]);
    OneCandidate(c, [d]);
    OneCandidate(d, []);
    assert [FIRST, c, d] == [FIRST] + [c, d] && [c, d] == [c] + [d] && [d] == [d] + [];
    SortIsStable([FIRST, c, d], ClipLess);
  }

  lemma SearchFails(s: seq<Clip>)
    requires s == [FIRST, SHORT, LONG]
    ensures !Greedy(s, 0, 30)
  {
    assert !Follow(s, 3, SHORT, 1.0, 30);
    assert !Continues(SHORT, LONG, 1.0);
    assert !Follow(s, 2, SHORT, 1.0, 30);
    assert Continues(FIRST, SHORT, 1.0);
    assert !Follow(s, 1, FIRST, 1.0, 30);
  }

  lemma SearchSucceeds(s: seq<Clip>)
    requires s == [FIRST, LONG, SHORT]
    ensures Greedy(s, 0, 30)
  {
    assert Continues(FIRST, s[1], 1.0);
    assert StartsAt(s, 0, 0, 30);
  }

  lemma ForkIsCovered(clips: seq<Clip>)
    requires clips == [FIRST, SHORT, LONG] && Candidates(clips, "a", 0, 30) == clips
    ensures Covered(clips, "a", 0, 30)
  {
    assert Continues(FIRST, LONG, 1.0) && clips[0] == FIRST && clips[2] == LONG;
    assert Chain([FIRST, LONG], clips, 0, 30);
  }

  /** At a fork the search takes the way that is listed first. If nothing goes on from there, it
      misses the chain along the other one; listed the other way round it finds it. */
  lemma ForkHidesCoverage()
    ensures Covered([FIRST, SHORT, LONG], "a", 0, 30) && !CoveredBy([FIRST, SHORT, LONG], "a", 0, 30)
    ensures CoveredBy([FIRST, LONG, SHORT], "a", 0, 30)
  {
    ForkedCandidates(SHORT, LONG);
    SearchFails(InOrder([FIRST, SHORT, LONG], "a", 0, 30));
    ForkIsCovered([FIRST, SHORT, LONG]);
    ForkedCandidates(LONG, SHORT);
    SearchSucceeds(InOrder([FIRST, LONG, SHORT], "a", 0, 30));
  }
}
