/**
 * The two dynamic programs that compare what was said: the longest passage repeated without
 * overlap, and the length of the longest common subsequence.
 */
module SpeechRepeats {
  import opened Basics
  import opened Subsequences

  // ---------------------------------------------------------------- the longest repeat

  /** The same `k` characters stand at `e` and at `l`, and the two passages do not overlap. */
  ghost predicate Repeat(s: string, e: nat, l: nat, k: nat) {
    e + k <= l && l + k <= |s| && s[e..e + k] == s[l..l + k]
  }

  /** How far the texts from `e` and from `l` on agree. */
  function Common(s: string, e: nat, l: nat): (k: nat)
    requires e <= l <= |s|
    ensures l + k <= |s|
    decreases |s| - l
  {
    if l == |s| || s[e] != s[l] then 0 else 1 + Common(s, e + 1, l + 1)
  }

  /** What a table entry means. */
  function Entry(s: string, e: nat, l: nat): nat
    requires e <= l <= |s|
  {
    Min(Common(s, e, l), l - e)
  }

  lemma {:induction false} AgreesAsFarAs(s: string, e: nat, l: nat, k: nat)
    requires e <= l && l + k <= |s|
    ensures s[e..e + k] == s[l..l + k] <==> k <= Common(s, e, l)
    decreases k
  {
    if k > 0 {
      assert s[e..e + k] == [s[e]] + s[e + 1..e + 1 + (k - 1)];
      assert s[l..l + k] == [s[l]] + s[l + 1..l + 1 + (k - 1)];
      AgreesAsFarAs(s, e + 1, l + 1, k - 1);
      assert s[e..e + k] == s[l..l + k] <==> s[e] == s[l] && s[e + 1..e + 1 + (k - 1)] == s[l + 1..l + 1 + (k - 1)] by {
        if s[e..e + k] == s[l..l + k] {
          assert s[e..e + k][0] == s[e] && s[l..l + k][0] == s[l];
          assert s[e..e + k][1..] == s[e + 1..e + 1 + (k - 1)] && s[l..l + k][1..] == s[l + 1..l + 1 + (k - 1)];
        }
      }
    }
  }

  /** The entry is the length of the longest repeat at exactly these two places. */
  lemma EntryIsLongest(s: string, e: nat, l: nat, k: nat)
    requires e <= l <= |s|
    ensures Repeat(s, e, l, k) <==> k <= Entry(s, e, l)
  {
    if l + k <= |s| {
      AgreesAsFarAs(s, e, l, k);
    }
  }

  predicate Before(p: (nat, nat), q: (nat, nat)) { p.0 < q.0 || (p.0 == q.0 && p.1 < q.1) }

  /** (e, l, k) is no worse than the repeat at (i, j), and not an earlier one of that length. */
  ghost predicate Beats(s: string, e: nat, l: nat, k: nat, i: nat, j: nat)
    requires i <= j <= |s|
  {
    Entry(s, i, j) <= k && (0 < k == Entry(s, i, j) ==> !Before((e, l), (i, j)))
  }

  /** (e, l, k) is a repeat that beats every pair of places from (r, c) on. */
  ghost predicate BestFrom(s: string, r: nat, c: nat, e: nat, l: nat, k: nat) {
    && e <= l <= |s| && k <= Entry(s, e, l)
    && (forall i: nat, j: nat :: i < j < |s| && !Before((i, j), (r, c)) ==> Beats(s, e, l, k, i, j))
    && (if k == 0 then e == 0 && l == 0 else !Before((e, l), (r, c)))
  }

  /** One more pair of places has been visited. */
  lemma BestStep(s: string, r: nat, c: nat, e: nat, l: nat, k: nat)
    requires r < c < |s| && BestFrom(s, r, c + 1, e, l, k)
    ensures var m := Entry(s, r, c);
      if m > k then BestFrom(s, r, c, r, c, m) else BestFrom(s, r, c, e, l, k)
  {
    var m := Entry(s, r, c);
    forall i: nat, j: nat | i < j < |s| && !Before((i, j), (r, c))
      ensures if m > k then Beats(s, r, c, m, i, j) else Beats(s, e, l, k, i, j)
    {
      if !(i == r && j == c) {
        assert Beats(s, e, l, k, i, j);
      }
    }
  }

  /** A row is done when only places with no room for a repeat are left in it. */
  lemma RowDone(s: string, r: nat, e: nat, l: nat, k: nat)
    requires BestFrom(s, r, r + 1, e, l, k)
    ensures BestFrom(s, r, 0, e, l, k)
  {
  }

  lemma RowBegins(s: string, r: nat, e: nat, l: nat, k: nat)
    requires r < |s| && BestFrom(s, r + 1, 0, e, l, k)
    ensures BestFrom(s, r, |s|, e, l, k)
  {
  }

  /** Rows above `r` hold their entries, and the rows up to `r` are still empty. */
  ghost predicate Filled(dp: array2<nat>, s: string, r: nat)
    reads dp
  {
    && dp.Length0 == dp.Length1 == |s| + 1
    && (forall i, j :: r < i < j <= |s| ==> dp[i, j] == Entry(s, i, j))
    && (forall i, j :: 0 <= i <= r && i <= |s| && 0 <= j <= |s| ==> dp[i, j] == 0)
  }

  /** In row `r` the places from `c` on hold their entries, too. */
  ghost predicate FilledTo(dp: array2<nat>, s: string, r: nat, c: nat)
    reads dp
  {
    && dp.Length0 == dp.Length1 == |s| + 1 && r < c <= |s|
    && (forall i, j :: r < i < j <= |s| ==> dp[i, j] == Entry(s, i, j))
    && (forall j :: c <= j <= |s| ==> dp[r, j] == Entry(s, r, j))
    && (forall i, j :: 0 <= i <= r && 0 <= j <= |s| && (i == r ==> j < c) ==> dp[i, j] == 0)
  }

  /** One place of the table; its entry stays empty when the characters differ. */
  method FillPlace(dp: array2<nat>, s: string, r: nat, c: nat) returns (candidate: nat)
    requires c < |s| && FilledTo(dp, s, r, c + 1) && r < c
    modifies dp
    ensures FilledTo(dp, s, r, c) && candidate == Entry(s, r, c)
  {
    if s[r] != s[c] {
      return 0;
    }
    candidate := Min(1 + dp[r + 1, c + 1], c - r);
    dp[r, c] := candidate;
  }

  /** The inner loop. */
  method FillRow(dp: array2<nat>, s: string, r: nat, e0: nat, l0: nat, k0: nat) returns (e: nat, l: nat, k: nat)
    requires r < |s| && Filled(dp, s, r) && BestFrom(s, r + 1, 0, e0, l0, k0)
    modifies dp
    ensures FilledTo(dp, s, r, r + 1) && BestFrom(s, r, 0, e, l, k)
  {
    e, l, k := e0, l0, k0;
    RowBegins(s, r, e, l, k);
    var later: nat := |s|;
    while later > r + 1
      invariant FilledTo(dp, s, r, later) && BestFrom(s, r, later, e, l, k)
    {
      later := later - 1;
      BestStep(s, r, later, e, l, k);
      var candidate := FillPlace(dp, s, r, later);
      if candidate > k {
        e, l, k := r, later, candidate;
      }
    }
    RowDone(s, r, e, l, k);
  }

  /** The longest repeat without overlap; of the longest ones, the one that starts last. */
  method LongestNonOverlappingRepeat(s: string) returns (e: nat, l: nat, k: nat)
    ensures Repeat(s, e, l, k)
    ensures forall i: nat, j: nat, m: nat :: Repeat(s, i, j, m) ==> m <= k
    ensures k > 0 ==> forall i: nat, j: nat :: Repeat(s, i, j, k) ==> !Before((e, l), (i, j))
    ensures k == 0 ==> e == 0 && l == 0
  {
    e, l, k := 0, 0, 0;
    if |s| < 2 {
      return;
    }
    var dp := new nat[|s| + 1, |s| + 1]((i, j) => 0);
    var earlier: nat := |s|;
    while earlier > 0
      invariant earlier <= |s| && fresh(dp)
      invariant earlier > 0 ==> Filled(dp, s, earlier - 1)
      invariant BestFrom(s, earlier, 0, e, l, k)
    {
      earlier := earlier - 1;
      e, l, k := FillRow(dp, s, earlier, e, l, k);
    }
    BestIsOptimal(s, e, l, k);
  }

  lemma BestIsOptimal(s: string, e: nat, l: nat, k: nat)
    requires BestFrom(s, 0, 0, e, l, k)
    ensures Repeat(s, e, l, k)
    ensures forall i: nat, j: nat, m: nat :: Repeat(s, i, j, m) ==> m <= k
    ensures k > 0 ==> forall i: nat, j: nat :: Repeat(s, i, j, k) ==> !Before((e, l), (i, j))
  {
    EntryIsLongest(s, e, l, k);
    forall i: nat, j: nat, m: nat | Repeat(s, i, j, m)
      ensures m <= k && (m == k > 0 ==> !Before((e, l), (i, j)))
    {
      EntryIsLongest(s, i, j, m);
      if m > 0 { assert Beats(s, e, l, k, i, j); }
    }
  }

  // ---------------------------------------------------------------- the longest common subsequence

  ghost predicate CommonSubsequence(c: string, a: string, b: string) {
    Subsequence(c, a) && Subsequence(c, b)
  }

  /** The recurrence that the rows follow, for the first `i` and `j` characters. */
  function Lcs(a: string, b: string, i: nat, j: nat): nat
    requires i <= |a| && j <= |b|
    decreases i + j
  {
    if i == 0 || j == 0 then 0
    else if a[i - 1] == b[j - 1] then 1 + Lcs(a, b, i - 1, j - 1)
    else Max(Lcs(a, b, i - 1, j), Lcs(a, b, i, j - 1))
  }

  /** The recurrence counts the elements of a common subsequence ... */
  lemma {:induction false} LcsIsReached(a: string, b: string, i: nat, j: nat) returns (c: string)
    requires i <= |a| && j <= |b|
    ensures CommonSubsequence(c, a[..i], b[..j]) && |c| == Lcs(a, b, i, j)
    decreases i + j
  {
    if i == 0 || j == 0 {
      c := "";
    } else {
      assert a[..i] == a[..i - 1] + [a[i - 1]] && b[..j] == b[..j - 1] + [b[j - 1]];
      if a[i - 1] == b[j - 1] {
        c := LcsIsReached(a, b, i - 1, j - 1);
        ExtendBoth(c, a[..i - 1], a[i - 1]);
        ExtendBoth(c, b[..j - 1], b[j - 1]);
        c := c + [a[i - 1]];
      } else if Lcs(a, b, i - 1, j) >= Lcs(a, b, i, j - 1) {
        c := LcsIsReached(a, b, i - 1, j);
        ExtendBoth(c, a[..i - 1], a[i - 1]);
      } else {
        c := LcsIsReached(a, b, i, j - 1);
        ExtendBoth(c, b[..j - 1], b[j - 1]);
      }
    }
  }

  /** ... and no common subsequence is longer. */
  lemma {:induction false} LcsIsMaximal(a: string, b: string, i: nat, j: nat, c: string)
    requires i <= |a| && j <= |b| && CommonSubsequence(c, a[..i], b[..j])
    ensures |c| <= Lcs(a, b, i, j)
    decreases i + j
  {
    if i == 0 || j == 0 || c == "" {
    } else {
      assert a[..i] == a[..i - 1] + [a[i - 1]] && b[..j] == b[..j - 1] + [b[j - 1]];
      LastOrNot(c, a[..i - 1], a[i - 1]);
      LastOrNot(c, b[..j - 1], b[j - 1]);
      if a[i - 1] == b[j - 1] {
        var init := c[..|c| - 1];
        assert c == init + [c[|c| - 1]] + [] && init + [] == init;
        if Subsequence(c, a[..i - 1]) { WithoutOne(init, c[|c| - 1], [], a[..i - 1]); }
        if Subsequence(c, b[..j - 1]) { WithoutOne(init, c[|c| - 1], [], b[..j - 1]); }
        LcsIsMaximal(a, b, i - 1, j - 1, init);
      } else if Subsequence(c, a[..i - 1]) {
        LcsIsMaximal(a, b, i - 1, j, c);
      } else {
        LcsIsMaximal(a, b, i, j - 1, c);
      }
    }
  }

  /** `r` is the length of the longest common subsequence. */
  ghost predicate IsLongestCommon(a: string, b: string, r: nat) {
    && (exists c :: CommonSubsequence(c, a, b) && |c| == r)
    && (forall c :: CommonSubsequence(c, a, b) ==> |c| <= r)
  }

  lemma LcsIsLongest(a: string, b: string)
    ensures IsLongestCommon(a, b, Lcs(a, b, |a|, |b|))
  {
    assert a[..|a|] == a && b[..|b|] == b;
    var c := LcsIsReached(a, b, |a|, |b|);
    assert CommonSubsequence(c, a, b);
    forall d | CommonSubsequence(d, a, b) ensures |d| <= Lcs(a, b, |a|, |b|) {
      LcsIsMaximal(a, b, |a|, |b|, d);
    }
  }

  lemma LongestIsSymmetric(a: string, b: string, r: nat)
    requires IsLongestCommon(a, b, r)
    ensures IsLongestCommon(b, a, r)
  {
    var c :| CommonSubsequence(c, a, b) && |c| == r;
    assert CommonSubsequence(c, b, a);
    forall d | CommonSubsequence(d, b, a) ensures |d| <= r {
      assert CommonSubsequence(d, a, b);
    }
  }

  /** `row` is the row of the recurrence for the first `j` characters of `right`. */
  ghost predicate IsRow(row: array<nat>, left: string, right: string, j: nat)
    requires j <= |right|
    reads row
  {
    row.Length == |left| + 1 && forall i :: 0 <= i <= |left| ==> row[i] == Lcs(left, right, i, j)
  }

  /** The inner loop: the next row from the previous one. */
  method NextRow(previous: array<nat>, current: array<nat>, left: string, right: string, j: nat)
    requires j < |right| && previous != current && IsRow(previous, left, right, j)
    requires current.Length == |left| + 1 && current[0] == 0
    modifies current
    ensures IsRow(current, left, right, j + 1)
  {
    for i := 0 to |left|
      invariant forall x :: 0 <= x <= i ==> current[x] == Lcs(left, right, x, j + 1)
    {
      if left[i] == right[j] {
        current[i + 1] := previous[i] + 1;
      } else {
        current[i + 1] := Max(previous[i + 1], current[i]);
      }
    }
  }

  /** Two rows, swapped after every character of the longer text. */
  method RowsLcs(left: string, right: string) returns (r: nat)
    ensures r == Lcs(left, right, |left|, |right|)
  {
    var previous := new nat[|left| + 1](i => 0);
    var current := new nat[|left| + 1](i => 0);
    for j := 0 to |right|
      invariant previous != current && fresh(previous) && fresh(current)
      invariant IsRow(previous, left, right, j) && current.Length == |left| + 1 && current[0] == 0
    {
      NextRow(previous, current, left, right, j);
      previous, current := current, previous;
      Clear(current);
    }
    r := previous[|left|];
  }

  method Clear(row: array<nat>)
    modifies row
    ensures forall i :: 0 <= i < row.Length ==> row[i] == 0
  {
    forall i | 0 <= i < row.Length {
      row[i] := 0;
    }
  }

  method LcsLength(left: string, right: string) returns (r: nat)
    ensures IsLongestCommon(left, right, r)
  {
    if |left| > |right| {
      r := RowsLcs(right, left);
      LcsIsLongest(right, left);
      LongestIsSymmetric(right, left, r);
    } else {
      r := RowsLcs(left, right);
      LcsIsLongest(left, right);
    }
  }
}
