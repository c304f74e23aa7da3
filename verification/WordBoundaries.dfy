/**
 * Keeping the delete range of every pause clear of the spoken words.
 */
module WordBoundaries {
  import opened Basics
  import opened Sorting
  import opened SpeechPauses

  const MINIMUM_SAFE_DELETE_FRAMES := 5

  datatype Word = Word(start: int, end: int)

  predicate WordEarlier(v: Word, w: Word) { v.start < w.start }

  /** What decoding and alignment guarantee of every word. */
  predicate Proper(words: seq<Word>) { forall w :: w in words ==> w.start < w.end }

  // ---------------------------------------------------------------- frame by frame

  predicate Within(w: Word, f: int) { w.start <= f < w.end }

  predicate Spoken(words: seq<Word>, f: int) { exists w :: w in words && Within(w, f) }

  /** Where the silence that holds from `f` on ends. */
  function SilentUntil(words: seq<Word>, f: int, hi: int): (e: int)
    requires f <= hi
    ensures f <= e <= hi
    ensures forall g :: f <= g < e ==> !Spoken(words, g)
    ensures e < hi ==> Spoken(words, e)
    decreases hi - f
  {
    if f == hi || Spoken(words, f) then f else SilentUntil(words, f + 1, hi)
  }

  /** The silent runs of the frames lo..hi, one frame after the other. */
  function Runs(words: seq<Word>, lo: int, hi: int): seq<Range>
    decreases hi - lo
  {
    if lo >= hi then []
    else if Spoken(words, lo) then Runs(words, lo + 1, hi)
    else
      var e := SilentUntil(words, lo, hi);
      [Range(lo, e)] + Runs(words, e, hi)
  }

  /** A maximal silent run within lo..hi. */
  ghost predicate IsRun(words: seq<Word>, lo: int, hi: int, r: Range) {
    && lo <= r.start < r.end <= hi
    && (forall f :: r.start <= f < r.end ==> !Spoken(words, f))
    && (r.start == lo || Spoken(words, r.start - 1))
    && (r.end == hi || Spoken(words, r.end))
  }

  predicate Ordered(rs: seq<Range>, from: int) {
    (forall i :: 0 <= i < |rs| ==> from <= rs[i].start) && forall i, j :: 0 <= i < j < |rs| ==> rs[i].end < rs[j].start
  }

  /** The scan finds exactly the maximal silent runs, in order. */
  lemma {:induction false} RunsAreMaximal(words: seq<Word>, lo: int, hi: int, r: Range)
    ensures r in Runs(words, lo, hi) <==> IsRun(words, lo, hi, r)
    decreases hi - lo
  {
    if lo < hi {
      if Spoken(words, lo) {
        RunsAreMaximal(words, lo + 1, hi, r);
      } else {
        var e := SilentUntil(words, lo, hi);
        RunsAreMaximal(words, e, hi, r);
        assert r in Runs(words, lo, hi) <==> r == Range(lo, e) || r in Runs(words, e, hi);
        if IsRun(words, lo, hi, r) {
          if r.start < e {
            assert r.start == lo;
            assert r.end >= e;
            assert r.end == e;
          }
        }
        if IsRun(words, e, hi, r) && e < hi {
          assert r.start > e;
        }
      }
    }
  }

  lemma {:induction false} RunsAreOrdered(words: seq<Word>, lo: int, hi: int)
    ensures Ordered(Runs(words, lo, hi), lo)
    decreases hi - lo
  {
    if lo < hi {
      if Spoken(words, lo) {
        RunsAreOrdered(words, lo + 1, hi);
      } else {
        var e := SilentUntil(words, lo, hi);
        RunsAreOrdered(words, e, hi);
        if e < hi { RunsAreOrdered(words, e + 1, hi); }
      }
    }
  }

  // ---------------------------------------------------------------- word by word

  lemma {:induction false} SkipSpoken(words: seq<Word>, lo: int, till: int, hi: int)
    requires lo <= till
    requires forall f :: lo <= f < till ==> Spoken(words, f)
    ensures Runs(words, lo, hi) == Runs(words, till, hi)
    decreases till - lo
  {
    if lo < till && lo < hi {
      assert Spoken(words, lo);
      SkipSpoken(words, lo + 1, till, hi);
    }
  }

  lemma TakeSilent(words: seq<Word>, lo: int, till: int, hi: int)
    requires lo < till <= hi && (forall f :: lo <= f < till ==> !Spoken(words, f)) && (till < hi ==> Spoken(words, till))
    ensures Runs(words, lo, hi) == [Range(lo, till)] + Runs(words, till, hi)
  {
    var e := SilentUntil(words, lo, hi);
    assert e == till;
  }

  /** The words before `i` end by the cursor. */
  ghost predicate Passed(words: seq<Word>, i: nat, cursor: int) {
    forall j :: 0 <= j < i && j < |words| ==> words[j].end <= cursor
  }

  /** Between the words that are over and the next one there is silence. */
  lemma Clear(words: seq<Word>, i: nat, cursor: int, till: int)
    requires Proper(words) && Sorted(words, WordEarlier) && i <= |words| && Passed(words, i, cursor)
    requires i < |words| ==> till <= words[i].start
    ensures forall f :: cursor <= f < till ==> !Spoken(words, f)
  {
    forall f, w | cursor <= f < till && w in words ensures !Within(w, f) {
      var j :| 0 <= j < |words| && words[j] == w;
      if i < j { assert !WordEarlier(words[j], words[i]); }
    }
  }

  lemma WordSpoken(words: seq<Word>, w: Word)
    requires w in words
    ensures forall f :: w.start <= f < w.end ==> Spoken(words, f)
  {
    forall f | Within(w, f) ensures Spoken(words, f) {
    }
  }

  ghost predicate Touched(words: seq<Word>, lo: int, hi: int) { exists f :: lo <= f < hi && Spoken(words, f) }

  /** What one word contributes: the silence before it, if there is any. */
  lemma MeetWord(words: seq<Word>, i: nat, lo: int, cursor: int, hi: int, segments: seq<Range>)
    requires Proper(words) && Sorted(words, WordEarlier) && i < |words| && Passed(words, i, cursor) && lo <= cursor
    requires words[i].end > cursor && words[i].start < hi
    ensures segments + Runs(words, cursor, hi) ==
      (if words[i].start > cursor then segments + [Range(cursor, words[i].start)] else segments)
        + Runs(words, Max(cursor, words[i].end), hi)
    ensures cursor < hi ==> Touched(words, lo, hi)
  {
    var word := words[i];
    var from := Max(word.start, cursor);
    WordSpoken(words, word);
    assert Spoken(words, from);
    if word.start > cursor {
      Clear(words, i, cursor, word.start);
      TakeSilent(words, cursor, word.start, hi);
    }
    SkipSpoken(words, from, word.end, hi);
  }

  /** After the last word that matters there is silence. */
  lemma NoWordLeft(words: seq<Word>, i: nat, cursor: int, hi: int)
    requires Proper(words) && Sorted(words, WordEarlier) && i <= |words| && Passed(words, i, cursor)
    requires i < |words| ==> hi <= words[i].start
    ensures Runs(words, cursor, hi) == if cursor < hi then [Range(cursor, hi)] else []
    ensures !Touched(words, cursor, hi)
  {
    Clear(words, i, cursor, hi);
    if cursor < hi {
      TakeSilent(words, cursor, hi, hi);
    }
  }

  /** Where the loop over the words stands. */
  ghost predicate Scanned(words: seq<Word>, i: nat, lo: int, cursor: int, hi: int, segments: seq<Range>, clamped: bool) {
    && i <= |words| && cursor >= lo && Passed(words, i, cursor)
    && segments + Runs(words, cursor, hi) == Runs(words, lo, hi)
    && (lo >= hi ==> segments == [])
    && if clamped then lo < hi ==> Touched(words, lo, hi) else cursor == lo && segments == []
  }

  lemma ScanWord(words: seq<Word>, i: nat, lo: int, cursor: int, hi: int, segments: seq<Range>, clamped: bool)
    requires Proper(words) && Sorted(words, WordEarlier) && i < |words|
    requires Scanned(words, i, lo, cursor, hi, segments, clamped) && (lo < hi ==> cursor < hi)
    ensures words[i].end <= cursor ==> Scanned(words, i + 1, lo, cursor, hi, segments, clamped)
    ensures words[i].end > cursor && words[i].start < hi ==>
      Scanned(words, i + 1, lo, Max(cursor, words[i].end), hi,
              if words[i].start > cursor then segments + [Range(cursor, words[i].start)] else segments, true)
  {
    if words[i].end > cursor && words[i].start < hi {
      MeetWord(words, i, lo, cursor, hi, segments);
    }
  }

  lemma ScanEnds(words: seq<Word>, i: nat, lo: int, cursor: int, hi: int, segments: seq<Range>, clamped: bool)
    requires Proper(words) && Sorted(words, WordEarlier)
    requires Scanned(words, i, lo, cursor, hi, segments, clamped)
    requires cursor < hi && i < |words| ==> hi <= words[i].start
    ensures Runs(words, lo, hi) == if cursor < hi then segments + [Range(cursor, hi)] else segments
    ensures lo < hi ==> (clamped <==> Touched(words, lo, hi))
  {
    if cursor < hi {
      NoWordLeft(words, i, cursor, hi);
    }
  }

  /** The inner loops of ClampSpeechPausesToWordBoundaries, for one delete range. */
  method SilentSegments(words: seq<Word>, lo: int, hi: int) returns (segments: seq<Range>, clamped: bool)
    requires Proper(words) && Sorted(words, WordEarlier)
    ensures lo < hi ==> segments == Runs(words, lo, hi) && (clamped <==> Touched(words, lo, hi))
    ensures lo >= hi ==> segments == [] || segments == [Range(lo, hi)]
  {
    var cursor := lo;
    segments, clamped := [], false;
    var i := 0;
    while i < |words|
      invariant 0 <= i && Scanned(words, i, lo, cursor, hi, segments, clamped) && (lo < hi ==> cursor < hi)
    {
      var word := words[i];
      ScanWord(words, i, lo, cursor, hi, segments, clamped);
      if word.end <= cursor {
        i := i + 1;
        continue;
      }
      if word.start >= hi {
        break;
      }
      clamped := true;
      if word.start > cursor {
        segments := segments + [Range(cursor, Min(word.start, hi))];
      }
      cursor := Max(cursor, word.end);
      i := i + 1;
      if cursor >= hi {
        break;
      }
    }
    ScanEnds(words, i, lo, cursor, hi, segments, clamped);
    if cursor < hi {
      segments := segments + [Range(cursor, hi)];
    }
    if !clamped && segments == [] {
      segments := [Range(lo, hi)];
    }
  }

  // ---------------------------------------------------------------- all pauses

  predicate DeletesEarlier(p: Pause, q: Pause) {
    if p.deleteStart == q.deleteStart then p.deleteEnd < q.deleteEnd else p.deleteStart < q.deleteStart
  }

  function Whole(value: Pause): Range { Range(value.deleteStart, value.deleteEnd) }

  /** The pause for one silent run of `value`; nothing changes if that is all of it. */
  function Item(asset: string, value: Pause, r: Range): Pause {
    if r == Whole(value) then value
    else
      var methods := value.methods + {"word_boundary_clamped"};
      value.(deleteStart := r.start, deleteEnd := r.end, methods := methods,
             id := Stable(asset, value.start, value.end, methods, Cut(r.start, r.end)))
  }

  predicate Safe(r: Range) { r.end - r.start >= MINIMUM_SAFE_DELETE_FRAMES }

  function Items(asset: string, value: Pause, rs: seq<Range>): seq<Pause> {
    if rs == [] then []
    else (if Safe(rs[0]) then [Item(asset, value, rs[0])] else []) + Items(asset, value, rs[1..])
  }

  function AllItems(asset: string, values: seq<Pause>, words: seq<Word>): seq<Pause> {
    if values == [] then []
    else Items(asset, values[0], Runs(words, values[0].deleteStart, values[0].deleteEnd))
         + AllItems(asset, values[1..], words)
  }

  /** The safe silent runs of all delete ranges, sorted. */
  function Clamp(asset: string, values: seq<Pause>, words: seq<Word>): seq<Pause> {
    StableSort(AllItems(asset, values, words), DeletesEarlier)
  }

  function Flatten(utterances: seq<seq<Word>>): seq<Word> {
    if utterances == [] then [] else utterances[0] + Flatten(utterances[1..])
  }

  ghost predicate SameWords(ws: seq<Word>, vs: seq<Word>) { forall w :: w in ws <==> w in vs }

  lemma SpokenSame(ws: seq<Word>, vs: seq<Word>, f: int)
    requires SameWords(ws, vs)
    ensures Spoken(ws, f) == Spoken(vs, f)
  {
  }

  lemma {:induction false} SilenceSame(ws: seq<Word>, vs: seq<Word>, f: int, hi: int)
    requires SameWords(ws, vs) && f <= hi
    ensures SilentUntil(ws, f, hi) == SilentUntil(vs, f, hi)
    decreases hi - f
  {
    SpokenSame(ws, vs, f);
    if f < hi && !Spoken(ws, f) {
      SilenceSame(ws, vs, f + 1, hi);
    }
  }

  /** The order of the words does not matter. */
  lemma {:induction false} RunsSame(ws: seq<Word>, vs: seq<Word>, lo: int, hi: int)
    requires SameWords(ws, vs)
    ensures Runs(ws, lo, hi) == Runs(vs, lo, hi)
    decreases hi - lo
  {
    if lo < hi {
      SpokenSame(ws, vs, lo);
      if Spoken(ws, lo) {
        RunsSame(ws, vs, lo + 1, hi);
      } else {
        SilenceSame(ws, vs, lo, hi);
        RunsSame(ws, vs, SilentUntil(ws, lo, hi), hi);
      }
    }
  }

  lemma TouchedIsNotWhole(words: seq<Word>, lo: int, hi: int)
    requires Touched(words, lo, hi)
    ensures Range(lo, hi) !in Runs(words, lo, hi)
  {
    RunsAreMaximal(words, lo, hi, Range(lo, hi));
  }

  /** One pass of the outer loop. */
  method ClampOne(asset: string, value: Pause, words: seq<Word>) returns (items: seq<Pause>)
    requires Proper(words) && Sorted(words, WordEarlier)
    ensures items == Items(asset, value, Runs(words, value.deleteStart, value.deleteEnd))
  {
    var segments, clamped := SilentSegments(words, value.deleteStart, value.deleteEnd);
    if value.deleteStart < value.deleteEnd && clamped {
      TouchedIsNotWhole(words, value.deleteStart, value.deleteEnd);
    }
    items := [];
    for i := 0 to |segments|
      invariant items + Items(asset, value, segments[i..]) == Items(asset, value, segments)
    {
      assert segments[i..][0] == segments[i] && segments[i..][1..] == segments[i + 1..];
      if segments[i].end - segments[i].start < MINIMUM_SAFE_DELETE_FRAMES {
        continue;
      }
      var item := value.(deleteStart := segments[i].start, deleteEnd := segments[i].end);
      var changed := clamped || segments[i].start != value.deleteStart || segments[i].end != value.deleteEnd;
      if changed {
        var methods := item.methods + {"word_boundary_clamped"};
        item := item.(methods := methods,
                      id := Stable(asset, item.start, item.end, methods, Cut(item.deleteStart, item.deleteEnd)));
      }
      assert item == Item(asset, value, segments[i]);
      items := items + [item];
    }
  }

  /** The outer loop. */
  method ClampEach(asset: string, values: seq<Pause>, words: seq<Word>) returns (result: seq<Pause>)
    requires Proper(words) && Sorted(words, WordEarlier)
    ensures result == AllItems(asset, values, words)
  {
    result := [];
    for i := 0 to |values|
      invariant result + AllItems(asset, values[i..], words) == AllItems(asset, values, words)
    {
      assert values[i..][0] == values[i] && values[i..][1..] == values[i + 1..];
      var items := ClampOne(asset, values[i], words);
      result := result + items;
    }
  }

  lemma {:induction false} AllItemsSame(asset: string, values: seq<Pause>, ws: seq<Word>, vs: seq<Word>)
    requires SameWords(ws, vs)
    ensures AllItems(asset, values, ws) == AllItems(asset, values, vs)
  {
    if values != [] {
      RunsSame(ws, vs, values[0].deleteStart, values[0].deleteEnd);
      AllItemsSame(asset, values[1..], ws, vs);
    }
  }

  method ClampPauses(asset: string, values: seq<Pause>, utterances: seq<seq<Word>>) returns (result: seq<Pause>)
    requires Proper(Flatten(utterances))
    ensures result == Clamp(asset, values, Flatten(utterances))
  {
    var all := Flatten(utterances);
    var words := StableSort(all, WordEarlier);
    SortSorts(all, WordEarlier);
    SortKeepsElements(all, WordEarlier);
    AllItemsSame(asset, values, words, all);
    result := ClampEach(asset, values, words);
    result := StableSort(result, DeletesEarlier);
  }

  // ---------------------------------------------------------------- what clamping guarantees

  /** `p` is what is left of `value` on a maximal silent run of at least five frames. */
  ghost predicate Remains(asset: string, value: Pause, words: seq<Word>, p: Pause) {
    exists r :: IsRun(words, value.deleteStart, value.deleteEnd, r) && Safe(r) && p == Item(asset, value, r)
  }

  lemma {:induction false} ItemsAre(asset: string, value: Pause, rs: seq<Range>, p: Pause)
    ensures p in Items(asset, value, rs) <==> exists r :: r in rs && Safe(r) && p == Item(asset, value, r)
  {
    if rs != [] {
      ItemsAre(asset, value, rs[1..], p);
      assert forall r :: r in rs <==> r == rs[0] || r in rs[1..];
    }
  }

  lemma ItemsRemain(asset: string, value: Pause, words: seq<Word>, p: Pause)
    ensures p in Items(asset, value, Runs(words, value.deleteStart, value.deleteEnd)) <==> Remains(asset, value, words, p)
  {
    var rs := Runs(words, value.deleteStart, value.deleteEnd);
    ItemsAre(asset, value, rs, p);
    forall r ensures r in rs <==> IsRun(words, value.deleteStart, value.deleteEnd, r) {
      RunsAreMaximal(words, value.deleteStart, value.deleteEnd, r);
    }
  }

  lemma {:induction false} AllItemsRemain(asset: string, values: seq<Pause>, words: seq<Word>, p: Pause)
    ensures p in AllItems(asset, values, words) <==> exists v :: v in values && Remains(asset, v, words, p)
  {
    if values != [] {
      AllItemsRemain(asset, values[1..], words, p);
      ItemsRemain(asset, values[0], words, p);
      assert forall v :: v in values <==> v == values[0] || v in values[1..];
    }
  }

  lemma DeletesEarlierIsWeakOrder()
    ensures WeakOrder(DeletesEarlier)
  {
  }

  /** Clamping yields exactly the maximal silent runs of at least five frames of every delete
      range, sorted by where they begin and end. */
  lemma ClampKeepsSilence(asset: string, values: seq<Pause>, words: seq<Word>)
    ensures forall p :: p in Clamp(asset, values, words) <==> exists v :: v in values && Remains(asset, v, words, p)
    ensures Sorted(Clamp(asset, values, words), DeletesEarlier)
  {
    var all := AllItems(asset, values, words);
    SortKeepsElements(all, DeletesEarlier);
    DeletesEarlierIsWeakOrder();
    SortSorts(all, DeletesEarlier);
    forall p ensures p in all <==> exists v :: v in values && Remains(asset, v, words, p) {
      AllItemsRemain(asset, values, words, p);
    }
  }

  /** `p` is what one maximal silent stretch of `v` leaves of it: the pause stays where it was, only
      its delete range shrinks, and then it is marked and named anew. */
  ghost predicate CutFrom(asset: string, v: Pause, words: seq<Word>, p: Pause) {
    && p.start == v.start && p.end == v.end
    && v.deleteStart <= p.deleteStart && p.deleteStart + 5 <= p.deleteEnd <= v.deleteEnd
    && (forall f :: p.deleteStart <= f < p.deleteEnd ==> !Spoken(words, f))
    && (p.deleteStart > v.deleteStart ==> Spoken(words, p.deleteStart - 1))
    && (p.deleteEnd < v.deleteEnd ==> Spoken(words, p.deleteEnd))
    && if p.deleteStart == v.deleteStart && p.deleteEnd == v.deleteEnd then p == v
       else && p.methods == v.methods + {"word_boundary_clamped"}
            && p.id == Stable(asset, p.start, p.end, p.methods, Cut(p.deleteStart, p.deleteEnd))
  }

  lemma RemainsIs(asset: string, v: Pause, words: seq<Word>, p: Pause)
    ensures Remains(asset, v, words, p) <==> CutFrom(asset, v, words, p)
  {
    if Remains(asset, v, words, p) {
      var r :| IsRun(words, v.deleteStart, v.deleteEnd, r) && Safe(r) && p == Item(asset, v, r);
      assert r == Range(p.deleteStart, p.deleteEnd);
    }
    if CutFrom(asset, v, words, p) {
      var r := Range(p.deleteStart, p.deleteEnd);
      assert IsRun(words, v.deleteStart, v.deleteEnd, r) && Safe(r) && p == Item(asset, v, r);
    }
  }

  /** Clamping yields exactly the pauses cut from the given ones, those first whose delete range
      begins, or else ends, earlier. */
  lemma ClampedPausesAre(asset: string, values: seq<Pause>, words: seq<Word>)
    ensures var result := Clamp(asset, values, words);
      && (forall p :: p in result <==> exists v :: v in values && CutFrom(asset, v, words, p))
      && forall i, j :: 0 <= i < j < |result| ==>
           || result[i].deleteStart < result[j].deleteStart
           || (result[i].deleteStart == result[j].deleteStart && result[i].deleteEnd <= result[j].deleteEnd)
  {
    var result := Clamp(asset, values, words);
    ClampKeepsSilence(asset, values, words);
    forall p ensures p in result <==> exists v :: v in values && CutFrom(asset, v, words, p) {
      forall v ensures Remains(asset, v, words, p) <==> CutFrom(asset, v, words, p) { RemainsIs(asset, v, words, p); }
    }
    forall i, j | 0 <= i < j < |result|
      ensures result[i].deleteStart < result[j].deleteStart
        || (result[i].deleteStart == result[j].deleteStart && result[i].deleteEnd <= result[j].deleteEnd)
    {
      assert !DeletesEarlier(result[j], result[i]);
    }
  }

  /** A pause whose delete range is silent and long enough. */
  ghost predicate Settled(p: Pause, words: seq<Word>) {
    Safe(Whole(p)) && forall f :: p.deleteStart <= f < p.deleteEnd ==> !Spoken(words, f)
  }

  /** No delete range that comes out of clamping touches a word. */
  lemma ClampNeverCutsWords(asset: string, values: seq<Pause>, words: seq<Word>)
    ensures forall p :: p in Clamp(asset, values, words) ==> Settled(p, words)
  {
    ClampKeepsSilence(asset, values, words);
    forall p | p in Clamp(asset, values, words) ensures Settled(p, words) {
      var v :| v in values && Remains(asset, v, words, p);
      var r :| IsRun(words, v.deleteStart, v.deleteEnd, r) && Safe(r) && p == Item(asset, v, r);
      assert Whole(p) == r;
    }
  }

  lemma {:induction false} SettledStay(asset: string, ps: seq<Pause>, words: seq<Word>)
    requires forall p :: p in ps ==> Settled(p, words)
    ensures AllItems(asset, ps, words) == ps
  {
    if ps != [] {
      var p := ps[0];
      assert p in ps;
      TakeSilent(words, p.deleteStart, p.deleteEnd, p.deleteEnd);
      assert Runs(words, p.deleteStart, p.deleteEnd) == [Whole(p)];
      assert Items(asset, p, [Whole(p)]) == [p] by { assert [Whole(p)][1..] == []; }
      SettledStay(asset, ps[1..], words);
    }
  }

  /** Clamping again, on what was persisted and with the same words in any order, is a no-op. */
  lemma ClampAgain(asset: string, values: seq<Pause>, words: seq<Word>, asset': string, words': seq<Word>)
    requires SameWords(words, words')
    ensures Clamp(asset', Clamp(asset, values, words), words') == Clamp(asset, values, words)
  {
    var ps := Clamp(asset, values, words);
    ClampKeepsSilence(asset, values, words);
    ClampNeverCutsWords(asset, values, words);
    forall p | p in ps ensures Settled(p, words') {
      forall f | p.deleteStart <= f < p.deleteEnd ensures !Spoken(words', f) {
        SpokenSame(words, words', f);
      }
    }
    SettledStay(asset', ps, words');
    SortIsStable(ps, DeletesEarlier);
  }
}
