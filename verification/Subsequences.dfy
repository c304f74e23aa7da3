/** What it means for a sequence to arise from another one by leaving elements out. */
module Subsequences {
  predicate Subsequence<T(==)>(small: seq<T>, big: seq<T>) {
    || small == []
    || (big != [] && ((small[0] == big[0] && Subsequence(small[1..], big[1..])) || Subsequence(small, big[1..])))
  }

  lemma {:induction false} SubsequenceOfSelf<T>(s: seq<T>)
    ensures Subsequence(s, s)
  {
    if s != [] {
      SubsequenceOfSelf(s[1..]);
    }
  }

  /** Leaving out one more element. */
  lemma {:induction false} WithoutOne<T>(a: seq<T>, x: T, b: seq<T>, big: seq<T>)
    requires Subsequence(a + [x] + b, big)
    ensures Subsequence(a + b, big)
    decreases |big|
  {
    var all := a + [x] + b;
    if big != [] {
      if all[0] == big[0] && Subsequence(all[1..], big[1..]) {
        if a == [] {
          assert all[1..] == b && a + b == b;
          assert Subsequence(b, big[1..]);
        } else {
          assert all[1..] == a[1..] + [x] + b;
          WithoutOne(a[1..], x, b, big[1..]);
          assert (a + b)[1..] == a[1..] + b && (a + b)[0] == a[0];
        }
      } else {
        WithoutOne(a, x, b, big[1..]);
      }
    }
  }

  /** A subsequence either ends with the last element or does without it. */
  lemma {:induction false} LastOrNot<T>(small: seq<T>, big: seq<T>, x: T)
    requires Subsequence(small, big + [x])
    ensures Subsequence(small, big)
      || (small != [] && small[|small| - 1] == x && Subsequence(small[..|small| - 1], big))
    decreases |big|
  {
    if small == [] {
    } else if big == [] {
      assert ([x])[1..] == [] && big + [x] == [x];
      assert small[0] == x && Subsequence(small[1..], []);
      assert small[1..] == [];
      assert small[..|small| - 1] == [];
    } else {
      assert (big + [x])[1..] == big[1..] + [x];
      if small[0] == big[0] && Subsequence(small[1..], big[1..] + [x]) {
        LastOrNot(small[1..], big[1..], x);
        if !Subsequence(small[1..], big[1..]) {
          assert small[1..][..|small| - 2] == small[..|small| - 1][1..];
        }
      } else {
        LastOrNot(small, big[1..], x);
        if !Subsequence(small, big[1..]) {
          assert Subsequence(small[..|small| - 1], big);
        }
      }
    }
  }

  lemma {:induction false} ExtendBoth<T>(small: seq<T>, big: seq<T>, x: T)
    requires Subsequence(small, big)
    ensures Subsequence(small + [x], big + [x]) && Subsequence(small, big + [x])
    decreases |big|
  {
    if small == [] {
      OnlyLast(big, x);
      assert small + [x] == [x];
    } else {
      assert (big + [x])[1..] == big[1..] + [x] && (small + [x])[1..] == small[1..] + [x];
      if small[0] == big[0] && Subsequence(small[1..], big[1..]) {
        ExtendBoth(small[1..], big[1..], x);
      } else {
        ExtendBoth(small, big[1..], x);
      }
    }
  }

  lemma {:induction false} OnlyLast<T>(big: seq<T>, x: T)
    ensures Subsequence([x], big + [x])
  {
    if big == [] {
      assert big + [x] == [x];
      SubsequenceOfSelf([x]);
    } else {
      OnlyLast(big[1..], x);
      assert (big + [x])[1..] == big[1..] + [x];
    }
  }
}
