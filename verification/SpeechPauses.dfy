/**
 * Pauses in a recording, detected by several methods: those that touch are merged.
 */
module SpeechPauses {
  import opened Basics
  import opened Sorting

  /** An identifier hashes its parts; `cut` is the delete range of a clamped pause. */
  datatype Cut = NoCut | Cut(start: int, end: int)
  datatype Id = Given(name: string) | Stable(asset: string, start: int, end: int, methods: set<string>, cut: Cut)

  datatype Pause = Pause(id: Id, start: int, end: int, deleteStart: int, deleteEnd: int, methods: set<string>)

  predicate Earlier(p: Pause, q: Pause) { p.start < q.start || (p.start == q.start && p.end < q.end) }

  lemma EarlierIsWeakOrder()
    ensures WeakOrder(Earlier)
  {
  }

  // ---------------------------------------------------------------- the merge

  function Join(last: Pause, value: Pause): Pause {
    last.(start := Min(last.start, value.start), end := Max(last.end, value.end),
          deleteStart := Min(last.deleteStart, value.deleteStart), deleteEnd := Max(last.deleteEnd, value.deleteEnd),
          methods := last.methods + value.methods)
  }

  /** Merging the sorted `rest` into what has been merged last. */
  function MergeFrom(last: Pause, rest: seq<Pause>): (r: seq<Pause>)
    ensures r != []
    decreases |rest|
  {
    if rest == [] then [last]
    else if rest[0].start <= last.end then MergeFrom(Join(last, rest[0]), rest[1..])
    else [last] + MergeFrom(rest[0], rest[1..])
  }

  function MergeSorted(values: seq<Pause>): seq<Pause> {
    if values == [] then [] else MergeFrom(values[0], values[1..])
  }

  function Named(asset: string, p: Pause): Pause { p.(id := Stable(asset, p.start, p.end, p.methods, NoCut)) }

  function NamedAll(asset: string, ps: seq<Pause>): (r: seq<Pause>)
    ensures |r| == |ps| && forall i :: 0 <= i < |ps| ==> r[i] == Named(asset, ps[i])
  {
    seq(|ps|, i requires 0 <= i < |ps| => Named(asset, ps[i]))
  }

  method MergePauses(asset: string, values: seq<Pause>) returns (result: seq<Pause>)
    ensures result == NamedAll(asset, MergeSorted(StableSort(values, Earlier)))
  {
    if values == [] {
      return [];
    }
    result := MergeNeighbours(StableSort(values, Earlier));
    ghost var merged := result;
    for i := 0 to |result|
      invariant |result| == |merged|
      invariant forall k :: 0 <= k < |result| ==> result[k] == if k < i then Named(asset, merged[k]) else merged[k]
    {
      result := result[i := Named(asset, result[i])];
    }
  }

  /** The loop: each pause is joined to the last result, or starts a new one. */
  method MergeNeighbours(sorted: seq<Pause>) returns (result: seq<Pause>)
    requires sorted != []
    ensures result == MergeSorted(sorted)
  {
    result := [sorted[0]];
    for i := 1 to |sorted|
      invariant result != [] && Extended(result, sorted[i..]) == MergeSorted(sorted)
    {
      var last := result[|result| - 1];
      ExtendedStep(result, sorted[i..]);
      assert sorted[i..][1..] == sorted[i + 1..];
      if sorted[i].start <= last.end {
        result := result[|result| - 1 := Join(last, sorted[i])];
      } else {
        result := result + [sorted[i]];
      }
    }
  }

  /** The results so far, and what the rest will add to them. */
  function Extended(result: seq<Pause>, rest: seq<Pause>): seq<Pause>
    requires result != []
  {
    result[..|result| - 1] + MergeFrom(result[|result| - 1], rest)
  }

  lemma ExtendedStep(result: seq<Pause>, rest: seq<Pause>)
    requires result != [] && rest != []
    ensures var last := result[|result| - 1];
      Extended(result, rest) == Extended(
        if rest[0].start <= last.end then result[|result| - 1 := Join(last, rest[0])] else result + [rest[0]], rest[1..])
  {
    var n, last := |result| - 1, result[|result| - 1];
    if rest[0].start <= last.end {
      var joined := result[n := Join(last, rest[0])];
      assert joined[..n] == result[..n] && joined[n] == Join(last, rest[0]);
      assert MergeFrom(last, rest) == MergeFrom(Join(last, rest[0]), rest[1..]);
    } else {
      var more, tail := result + [rest[0]], MergeFrom(rest[0], rest[1..]);
      assert more[..n + 1] == result[..n] + [last];
      assert MergeFrom(last, rest) == [last] + tail;
      assert result[..n] + ([last] + tail) == result[..n] + [last] + tail;
    }
  }

  // ---------------------------------------------------------------- separation

  /** At least one frame lies between any two pauses. */
  ghost predicate Separated(ps: seq<Pause>) {
    forall i, j :: 0 <= i < j < |ps| ==> ps[i].start <= ps[j].start && ps[i].end < ps[j].start
  }

  /** Sorting puts every later start behind `s`. */
  ghost predicate StartsFrom(s: int, rest: seq<Pause>) { forall i :: 0 <= i < |rest| ==> s <= rest[i].start }

  ghost predicate ByStart(ps: seq<Pause>) { forall i, j :: 0 <= i < j < |ps| ==> ps[i].start <= ps[j].start }

  lemma {:induction false} MergeSeparates(last: Pause, rest: seq<Pause>)
    requires ByStart([last] + rest)
    ensures Separated(MergeFrom(last, rest)) && MergeFrom(last, rest)[0].start == last.start
    ensures StartsFrom(last.start, MergeFrom(last, rest))
    decreases |rest|
  {
    if rest != [] {
      var all := [last] + rest;
      assert rest == all[1..] && all[0] == last && all[1] == rest[0];
      if rest[0].start <= last.end {
        assert ByStart([Join(last, rest[0])] + rest[1..]) by {
          assert forall i :: 0 < i < |rest| ==> ([Join(last, rest[0])] + rest[1..])[i] == all[i + 1];
        }
        MergeSeparates(Join(last, rest[0]), rest[1..]);
      } else {
        assert [rest[0]] + rest[1..] == all[1..];
        MergeSeparates(rest[0], rest[1..]);
      }
    }
  }

  // ---------------------------------------------------------------- coverage

  predicate Covers(p: Pause, f: int) { p.start <= f < p.end }

  predicate Covered(ps: seq<Pause>, f: int) { ps != [] && (Covers(ps[0], f) || Covered(ps[1..], f)) }

  lemma {:induction false} MergeCovers(last: Pause, rest: seq<Pause>, f: int)
    requires ByStart([last] + rest)
    ensures Covered(MergeFrom(last, rest), f) <==> Covers(last, f) || Covered(rest, f)
    decreases |rest|
  {
    if rest != [] {
      var all := [last] + rest;
      assert all[0] == last && all[1] == rest[0];
      if rest[0].start <= last.end {
        var joined := Join(last, rest[0]);
        assert ByStart([joined] + rest[1..]) by {
          assert forall i :: 0 < i < |rest| ==> ([joined] + rest[1..])[i] == all[i + 1];
        }
        MergeCovers(joined, rest[1..], f);
        assert Covers(joined, f) <==> Covers(last, f) || Covers(rest[0], f);
      } else {
        assert [rest[0]] + rest[1..] == all[1..];
        MergeCovers(rest[0], rest[1..], f);
        assert ([last] + MergeFrom(rest[0], rest[1..]))[1..] == MergeFrom(rest[0], rest[1..]);
      }
    }
  }

  lemma {:induction false} CoveredExists(ps: seq<Pause>, f: int)
    ensures Covered(ps, f) <==> exists p :: p in ps && Covers(p, f)
  {
    if ps != [] {
      CoveredExists(ps[1..], f);
      assert forall p :: p in ps <==> p == ps[0] || p in ps[1..];
    }
  }

  // ---------------------------------------------------------------- hulls

  ghost predicate Least(x: int, s: seq<int>) { x in s && forall y :: y in s ==> x <= y }

  ghost predicate Greatest(x: int, s: seq<int>) { x in s && forall y :: y in s ==> y <= x }

  function Field(ps: seq<Pause>, get: Pause -> int): (r: seq<int>)
    ensures |r| == |ps| && forall i :: 0 <= i < |ps| ==> r[i] == get(ps[i])
  {
    seq(|ps|, i requires 0 <= i < |ps| => get(ps[i]))
  }

  function StartOf(p: Pause): int { p.start }

  function EndOf(p: Pause): int { p.end }

  function DeleteStartOf(p: Pause): int { p.deleteStart }

  function DeleteEndOf(p: Pause): int { p.deleteEnd }

  function Methods(ps: seq<Pause>): set<string> {
    if ps == [] then {} else Methods(ps[..|ps| - 1]) + ps[|ps| - 1].methods
  }

  /** `r` spans the group, and so does its delete range; it was detected by all the methods. */
  ghost predicate Hull(r: Pause, group: seq<Pause>) {
    && Least(r.start, Field(group, StartOf)) && Greatest(r.end, Field(group, EndOf))
    && Least(r.deleteStart, Field(group, DeleteStartOf)) && Greatest(r.deleteEnd, Field(group, DeleteEndOf))
    && r.methods == Methods(group)
  }

  lemma LeastAppend(x: int, s: seq<int>, y: int)
    requires Least(x, s)
    ensures Least(Min(x, y), s + [y])
  {
    assert (s + [y])[|s|] == y;
  }

  lemma GreatestAppend(x: int, s: seq<int>, y: int)
    requires Greatest(x, s)
    ensures Greatest(Max(x, y), s + [y])
  {
    assert (s + [y])[|s|] == y;
  }

  lemma JoinIsHull(last: Pause, group: seq<Pause>, value: Pause)
    requires Hull(last, group)
    ensures Hull(Join(last, value), group + [value])
  {
    var more := group + [value];
    assert more[..|more| - 1] == group;
    assert Field(more, StartOf) == Field(group, StartOf) + [value.start];
    assert Field(more, EndOf) == Field(group, EndOf) + [value.end];
    assert Field(more, DeleteStartOf) == Field(group, DeleteStartOf) + [value.deleteStart];
    assert Field(more, DeleteEndOf) == Field(group, DeleteEndOf) + [value.deleteEnd];
    LeastAppend(last.start, Field(group, StartOf), value.start);
    GreatestAppend(last.end, Field(group, EndOf), value.end);
    LeastAppend(last.deleteStart, Field(group, DeleteStartOf), value.deleteStart);
    GreatestAppend(last.deleteEnd, Field(group, DeleteEndOf), value.deleteEnd);
  }

  function Concat(groups: seq<seq<Pause>>): seq<Pause> {
    if groups == [] then [] else groups[0] + Concat(groups[1..])
  }

  /** The results are the hulls of consecutive groups. */
  ghost predicate Hulls(results: seq<Pause>, groups: seq<seq<Pause>>) {
    |results| == |groups| && forall i :: 0 <= i < |results| ==> Hull(results[i], groups[i])
  }

  lemma {:induction false} MergeIsHulls(last: Pause, group: seq<Pause>, rest: seq<Pause>)
    returns (groups: seq<seq<Pause>>)
    requires Hull(last, group)
    ensures Concat(groups) == group + rest && Hulls(MergeFrom(last, rest), groups)
    decreases |rest|
  {
    if rest == [] {
      OneMoreGroup(last, group, [], []);
      groups := [group];
    } else {
      assert group + rest == group + [rest[0]] + rest[1..] && rest == [rest[0]] + rest[1..];
      if rest[0].start <= last.end {
        JoinIsHull(last, group, rest[0]);
        groups := MergeIsHulls(Join(last, rest[0]), group + [rest[0]], rest[1..]);
      } else {
        SingleIsHull(rest[0]);
        var tail := MergeIsHulls(rest[0], [rest[0]], rest[1..]);
        OneMoreGroup(last, group, MergeFrom(rest[0], rest[1..]), tail);
        groups := [group] + tail;
      }
    }
  }

  lemma OneMoreGroup(r: Pause, group: seq<Pause>, results: seq<Pause>, groups: seq<seq<Pause>>)
    requires Hull(r, group) && Hulls(results, groups)
    ensures Hulls([r] + results, [group] + groups) && Concat([group] + groups) == group + Concat(groups)
  {
    assert ([group] + groups)[1..] == groups;
    forall i | 0 <= i < |results| + 1 ensures Hull(([r] + results)[i], ([group] + groups)[i]) {
      if i > 0 { assert Hull(results[i - 1], groups[i - 1]); }
    }
  }

  lemma SingleIsHull(p: Pause)
    ensures Hull(p, [p])
  {
    assert [p][..0] == [];
    assert Methods([p]) == Methods([p][..0]) + p.methods;
    assert Field([p], StartOf)[0] == p.start && Field([p], EndOf)[0] == p.end;
    assert Field([p], DeleteStartOf)[0] == p.deleteStart && Field([p], DeleteEndOf)[0] == p.deleteEnd;
  }

  /** Merging any pauses: the results are sorted with a gap between any two; they cover the same
      frames; each of them is the hull of a group, and the groups make up the sorted pauses. */
  lemma MergeIsSound(values: seq<Pause>) returns (groups: seq<seq<Pause>>)
    ensures var merged := MergeSorted(StableSort(values, Earlier));
      && Separated(merged) && Hulls(merged, groups) && multiset(Concat(groups)) == multiset(values)
      && forall f :: Covered(merged, f) <==> Covered(values, f)
  {
    var sorted := StableSort(values, Earlier);
    var merged := MergeSorted(sorted);
    if values == [] {
      return [];
    }
    EarlierIsWeakOrder();
    SortSorts(values, Earlier);
    SortKeepsElements(values, Earlier);
    var first, rest := sorted[0], sorted[1..];
    assert [first] + rest == sorted;
    assert ByStart(sorted) by {
      forall i, j | 0 <= i < j < |sorted| ensures sorted[i].start <= sorted[j].start {
        assert !Earlier(sorted[j], sorted[i]);
      }
    }
    MergeSeparates(first, rest);
    SingleIsHull(first);
    groups := MergeIsHulls(first, [first], rest);
    forall f ensures Covered(merged, f) <==> Covered(values, f) {
      MergeCovers(first, rest, f);
      CoveredExists(values, f);
      CoveredExists(sorted, f);
    }
  }

  // ---------------------------------------------------------------- the named results

  lemma NamedHull(asset: string, p: Pause, group: seq<Pause>)
    requires Hull(p, group)
    ensures Hull(Named(asset, p), group)
  {
  }

  /** What MergePauses returns: separated pauses over the frames of the given ones, each the hull of
      a consecutive group of them, and named after exactly what it is. */
  lemma MergedPausesAre(asset: string, values: seq<Pause>, result: seq<Pause>) returns (groups: seq<seq<Pause>>)
    requires result == NamedAll(asset, MergeSorted(StableSort(values, Earlier)))
    ensures Separated(result) && Hulls(result, groups) && multiset(Concat(groups)) == multiset(values)
    ensures forall f :: Covered(result, f) <==> Covered(values, f)
    ensures forall p :: p in result ==> p.id == Stable(asset, p.start, p.end, p.methods, NoCut)
  {
    var merged := MergeSorted(StableSort(values, Earlier));
    groups := MergeIsSound(values);
    forall i | 0 <= i < |result| ensures Hull(result[i], groups[i]) {
      NamedHull(asset, merged[i], groups[i]);
    }
    forall f ensures Covered(result, f) <==> Covered(merged, f) {
      CoveredExists(result, f);
      CoveredExists(merged, f);
      forall i | 0 <= i < |result| ensures Covers(result[i], f) <==> Covers(merged[i], f) {}
    }
  }
}
