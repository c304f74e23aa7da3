/**
 * Who may be inside together: the locks shut out exactly the calls that conflict, and nobody
 * waits for a lock that nothing stands in the way of.
 */
module LockSharing {
  import opened Basics
  import opened Sorting
  import opened IndexedLocks
  import opened LockOrder

  // ---------------------------------------------------------------- which accesses conflict

  /** A read of all resources comes first, whatever else the access says. */
  predicate Writes(a: Access) { a.writeResource && !a.allResources }

  /** The least resource of the access; the empty string if it names none. */
  ghost predicate IsFirst(a: Access, n: string) {
    && n != "" && n in a.resources
    && forall m :: m in a.resources && m != "" && m != n ==> StringLess(n, m)
  }

  /** The access reads everything, reads `n`, or writes `n`. */
  ghost predicate Touches(b: Access, n: string) {
    || b.allResources
    || (if b.writeResource then IsFirst(b, n) else n in b.resources)
  }

  /** One of them writes what the other touches. */
  ghost predicate Conflicts(a: Access, b: Access) {
    && a.domain == b.domain
    && exists n :: (Writes(a) && IsFirst(a, n) && Touches(b, n)) || (Writes(b) && IsFirst(b, n) && Touches(a, n))
  }

  lemma FirstName(a: Access, n: string)
    requires LockNames(a.resources) != []
    ensures IsFirst(a, n) <==> n == LockNames(a.resources)[0]
  {
    LockNamesAre(a.resources);
    var names := LockNames(a.resources);
    assert names[0] in names;
    forall m | m in a.resources && m != "" && m != names[0] ensures StringLess(names[0], m) {
      assert m in names;
    }
    if IsFirst(a, n) && n != names[0] {
      assert n in names;
      StringLessTotal(n, names[0]);
    }
  }

  lemma ReadersDoNotClash(a: Access, b: Access)
    requires Takes(a).Some? && Takes(b).Some? && !Writes(a) && !Writes(b)
    ensures !Excludes(a, b)
  {
    forall x, y | x in Takes(a).value && y in Takes(b).value ensures !Incompatible(x, y) {
      if !a.allResources { EachHolds(a.domain, LockNames(a.resources), x); }
      if !b.allResources { EachHolds(b.domain, LockNames(b.resources), y); }
    }
  }

  lemma ClashIsMutual(a: seq<Hold>, b: seq<Hold>)
    ensures Clash(a, b) ==> Clash(b, a)
  {
    if Clash(a, b) {
      var x, y :| x in a && y in b && Incompatible(x, y);
      assert Incompatible(y, x);
    }
  }

  lemma WriterConflicts(a: Access, b: Access)
    requires Takes(a).Some? && Takes(b).Some? && Writes(a)
    ensures Excludes(a, b) <==> Conflicts(a, b)
  {
    var n := LockNames(a.resources)[0];
    WriteExcludesExactly(a, b);
    FirstName(a, n);
    forall m | IsFirst(a, m) ensures m == n { FirstName(a, m); }
    if Writes(b) {
      var k := LockNames(b.resources)[0];
      FirstName(b, k);
      forall m | IsFirst(b, m) ensures m == k { FirstName(b, m); }
    }
  }

  /** Two accesses exclude each other exactly if they conflict: in particular readers never do. */
  lemma ExcludesExactly(a: Access, b: Access)
    requires Takes(a).Some? && Takes(b).Some?
    ensures Excludes(a, b) <==> Conflicts(a, b)
  {
    if Writes(a) {
      WriterConflicts(a, b);
    } else if Writes(b) {
      WriterConflicts(b, a);
      ClashIsMutual(Takes(a).value, Takes(b).value);
      ClashIsMutual(Takes(b).value, Takes(a).value);
    } else {
      ReadersDoNotClash(a, b);
    }
  }

  /** What an access needs locks for. */
  ghost predicate Needs(a: Access, h: Hold) {
    !h.lock.Turn? && h.lock.domain == a.domain &&
    if h.lock.Domain? then (if h.mode == Read then a.allResources else Writes(a))
    else !a.allResources && if h.mode == Write then Writes(a) && IsFirst(a, h.lock.name)
                            else !a.writeResource && h.lock.name in a.resources && h.lock.name != ""
  }

  lemma WriteNeeded(a: Access, h: Hold)
    requires Takes(a).Some? && Writes(a)
    ensures h in Takes(a).value <==> Needs(a, h)
  {
    var n := LockNames(a.resources)[0];
    assert Takes(a).value == WriteTakes(a.domain, n);
    if h.lock.Resource? { FirstName(a, h.lock.name); }
  }

  lemma ReadNeeded(a: Access, h: Hold)
    requires !a.writeResource && !a.allResources
    ensures h in Takes(a).value <==> Needs(a, h)
  {
    EachHolds(a.domain, LockNames(a.resources), h);
    if h.lock.Resource? { NamesMember(a.resources, h.lock.name); }
  }

  lemma TakesNeeded(a: Access, h: Hold)
    requires Takes(a).Some?
    ensures h in Takes(a).value <==> Needs(a, h)
  {
    if Writes(a) {
      WriteNeeded(a, h);
    } else if !a.allResources {
      ReadNeeded(a, h);
    }
  }

  lemma {:induction false} TakesAllHolds(accesses: seq<Access>, h: Hold)
    requires TakesAll(accesses).Some?
    ensures h in TakesAll(accesses).value <==> exists a :: a in accesses && Takes(a).Some? && h in Takes(a).value
  {
    if accesses != [] {
      TakesAllHolds(accesses[1..], h);
      assert forall a :: a in accesses <==> a == accesses[0] || a in accesses[1..];
    }
  }

  lemma {:induction false} TakesAllFails(accesses: seq<Access>)
    ensures TakesAll(accesses).None? <==> exists a :: a in accesses && Takes(a).None?
  {
    if accesses != [] {
      TakesAllFails(accesses[1..]);
      assert forall a :: a in accesses <==> a == accesses[0] || a in accesses[1..];
    }
  }

  /** Begin takes exactly what the accesses need, and fails exactly if one of them writes no
      resource at all. */
  lemma BeginTakesExactly(accesses: seq<Access>)
    ensures BeginTakes(accesses).None? <==> exists a :: a in accesses && Writes(a) && forall n :: n in a.resources ==> n == ""
    ensures BeginTakes(accesses).Some? ==>
      forall h :: h in BeginTakes(accesses).value <==> exists a :: a in accesses && Needs(a, h)
  {
    var sorted := StableSort(accesses, DomainLess);
    SortKeepsElements(accesses, DomainLess);
    TakesAllFails(sorted);
    forall a | a in accesses ensures Takes(a).None? <==> Writes(a) && forall n :: n in a.resources ==> n == "" {
      NoNames(a);
    }
    if BeginTakes(accesses).Some? {
      forall h ensures h in BeginTakes(accesses).value <==> exists a :: a in accesses && Needs(a, h) {
        TakesAllHolds(sorted, h);
        forall a | a in accesses ensures Takes(a).Some? && (h in Takes(a).value <==> Needs(a, h)) {
          TakesNeeded(a, h);
        }
      }
    }
  }

  lemma NoNames(a: Access)
    ensures Takes(a).None? <==> Writes(a) && forall n :: n in a.resources ==> n == ""
  {
    LockNamesAre(a.resources);
    var names := LockNames(a.resources);
    if names != [] {
      assert names[0] in names;
    } else {
      forall n | n in a.resources ensures n == "" {
        assert n != "" ==> n in names;
      }
    }
  }

  // ---------------------------------------------------------------- nobody waits in vain

  /** Nothing stands in the way of the lock: no incompatible holder and, for a reader, no writer
      that has announced itself. */
  ghost predicate Open(s: State, l: Lock, mode: Mode) {
    && (forall x, h :: x in s.calls && h in s.calls[x].held ==> !Incompatible(h, Hold(l, mode)))
    && (mode == Read ==> forall x :: x in s.calls ==> !Waits(s.calls[x], l))
  }

  lemma HeldCounts(s: State, l: Lock, mode: Mode)
    requires Inv(s)
    ensures (mode == Read ==> At(s, l).readers > 0) && (mode == Write ==> At(s, l).writers > 0)
      <==> exists x :: x in s.calls && Hold(l, mode) in s.calls[x].held
  {
    assert At(s, l).readers == |Holders(s.calls, l, Read)|;
    assert At(s, l).writers == |Holders(s.calls, l, Write)|;
    if x :| x in s.calls && Hold(l, mode) in s.calls[x].held {
      assert x in Holders(s.calls, l, mode);
    } else {
      assert Holders(s.calls, l, mode) == {};
    }
  }

  lemma AnnouncedCount(s: State, l: Lock)
    requires Inv(s)
    ensures At(s, l).waiting > 0 <==> exists x :: x in s.calls && Waits(s.calls[x], l)
  {
    assert At(s, l).waiting == |Waiters(s.calls, l)|;
    if x :| x in s.calls && Waits(s.calls[x], l) {
      assert x in Waiters(s.calls, l);
    } else {
      assert Waiters(s.calls, l) == {};
    }
  }

  /** In every reachable state an attempt is granted exactly if nothing stands in its way. */
  lemma GrantedExactly(s: State, c: CallId)
    requires Reachable(s) && Wants(s, c)
    requires s.calls[c].want.value.mode == Write ==> s.calls[c].want.value.announced
    ensures var r := s.calls[c].want.value; Grantable(At(s, r.lock), r.mode) <==> Open(s, r.lock, r.mode)
  {
    ReachableInv(s);
    var r := s.calls[c].want.value;
    HeldCounts(s, r.lock, Read);
    HeldCounts(s, r.lock, Write);
    AnnouncedCount(s, r.lock);
    assert Compatible(r.lock, At(s, r.lock));
    assert r.mode == Read ==> Incompatible(Hold(r.lock, Write), Hold(r.lock, r.mode));
    assert r.mode == Write ==> Incompatible(Hold(r.lock, Read), Hold(r.lock, r.mode));
    if Grantable(At(s, r.lock), r.mode) {
      forall x, h | x in s.calls && h in s.calls[x].held ensures !Incompatible(h, Hold(r.lock, r.mode)) {
        if h.lock == r.lock { assert h == Hold(r.lock, h.mode); }
      }
    }
  }

  // ---------------------------------------------------------------- calls that are inside together

  lemma ReachableStep(s: State, step: Step)
    requires Reachable(s) && Enabled(s, step)
    ensures Reachable(Do(s, step))
  {
    var states, steps :| Run(states, steps) && states[|steps|] == s;
    assert Run(states + [Do(s, step)], steps + [step]);
    assert (states + [Do(s, step)])[|steps + [step]|] == Do(s, step);
  }

  /** No call is asking for anything. */
  predicate Quiet(s: State) { forall c :: c in s.calls ==> s.calls[c].want.None? }

  /** The call can have the lock as its next one. */
  ghost predicate Free(s: State, c: CallId, h: Hold) {
    && Reachable(s) && Quiet(s) && c in s.calls && Open(s, h.lock, h.mode)
    && forall g :: g in s.calls[c].held ==> Below(g.lock, h.lock)
  }

  lemma Asked(s: State, c: CallId, h: Hold) returns (s': State)
    requires Free(s, c, h)
    ensures Reachable(s') && s'.calls == s.calls[c := s.calls[c].(want := Some(Request(h.lock, h.mode, false, false)))]
    ensures forall l :: At(s', l) == At(s, l)
    ensures Open(s', h.lock, h.mode)
  {
    ReachableStep(s, Ask(c, h.lock, h.mode));
    s' := Do(s, Ask(c, h.lock, h.mode));
  }

  lemma NobodyAnnounced(s: State, l: Lock)
    requires Reachable(s) && forall x :: x in s.calls ==> !Waits(s.calls[x], l)
    ensures At(s, l).waiting <= 0
  {
    ReachableInv(s);
    AnnouncedCount(s, l);
  }

  lemma WriterIsGranted(s: State, c: CallId, h: Hold) returns (s': State)
    requires Free(s, c, h) && h.mode == Write
    ensures Reachable(s') && s'.calls == s.calls[c := Call(s.calls[c].held + [h], None)]
  {
    var s1 := Asked(s, c, h);
    ReachableInv(s1);
    HeldCounts(s1, h.lock, Read);
    HeldCounts(s1, h.lock, Write);
    NobodyAnnounced(s1, h.lock);
    assert Incompatible(Hold(h.lock, Read), Hold(h.lock, h.mode));
    assert Exclusive(h.lock) ==> Incompatible(Hold(h.lock, Write), Hold(h.lock, h.mode));
    ReachableStep(s1, Announce(c));
    s' := Do(s1, Announce(c));
    if Exclusive(h.lock) {
      ReachableStep(s', Try(c));
      s' := Do(s', Try(c));
    }
  }

  lemma ReaderIsGranted(s: State, c: CallId, h: Hold) returns (s': State)
    requires Free(s, c, h) && h.mode == Read
    ensures Reachable(s') && s'.calls == s.calls[c := Call(s.calls[c].held + [h], None)]
  {
    var s1 := Asked(s, c, h);
    GrantedExactly(s1, c);
    ReachableStep(s1, Try(c));
    s' := Do(s1, Try(c));
  }

  /** Nothing that another call holds stands in the way of the lock. */
  ghost predicate Undisputed(s: State, c: CallId, h: Hold) {
    forall x, g :: x in s.calls && x != c && g in s.calls[x].held ==> !Incompatible(g, h)
  }

  lemma NextIsFree(s: State, c: CallId, h: Hold, rest: seq<Hold>)
    requires Reachable(s) && Quiet(s) && c in s.calls && Undisputed(s, c, h)
    requires LocksUp(s.calls[c].held + ([h] + rest))
    ensures Free(s, c, h)
  {
    var held, all := s.calls[c].held, s.calls[c].held + ([h] + rest);
    forall g | g in held ensures Below(g.lock, h.lock) && !Incompatible(g, h) {
      var i :| 0 <= i < |held| && held[i] == g;
      assert all[i] == g && all[|held|] == h;
      BelowIrreflexive(g.lock);
    }
  }

  lemma GrantOne(s: State, c: CallId, h: Hold) returns (s': State)
    requires Free(s, c, h)
    ensures Reachable(s') && s'.calls == s.calls[c := Call(s.calls[c].held + [h], None)]
  {
    if h.mode == Read { s' := ReaderIsGranted(s, c, h); } else { s' := WriterIsGranted(s, c, h); }
  }

  /** A call takes the locks of a list, one after another. */
  lemma {:induction false} TakesThemAll(s: State, c: CallId, holds: seq<Hold>) returns (s': State)
    requires Reachable(s) && Quiet(s) && c in s.calls
    requires LocksUp(s.calls[c].held + holds) && forall h :: h in holds ==> Undisputed(s, c, h)
    ensures Reachable(s') && s'.calls == s.calls[c := Call(s.calls[c].held + holds, None)]
    decreases |holds|
  {
    var held := s.calls[c].held;
    if holds == [] {
      assert held + holds == held && s.calls[c] == Call(held, None);
      return s;
    }
    var h, rest := holds[0], holds[1..];
    assert holds == [h] + rest && (held + [h]) + rest == held + holds;
    NextIsFree(s, c, h, rest);
    var s1 := GrantOne(s, c, h);
    forall g | g in rest ensures Undisputed(s1, c, g) {
      assert Undisputed(s, c, g);
    }
    s' := TakesThemAll(s1, c, rest);
  }

  lemma TwoCallsArrive(x: CallId, y: CallId) returns (s: State)
    requires x != y
    ensures Reachable(s) && s.calls == map[x := Call([], None), y := Call([], None)]
  {
    var s0 := State(map[], map[]);
    var states, steps: seq<Step> := [s0], [];
    assert Run(states, steps) && states[|steps|] == s0;
    ReachableStep(s0, Arrive(x));
    var s1 := Do(s0, Arrive(x));
    ReachableStep(s1, Arrive(y));
    s := Do(s1, Arrive(y));
  }

  /** Call `c` is inside with access `a`. */
  ghost predicate Inside(s: State, c: CallId, a: Access)
    requires Takes(a).Some?
  {
    c in s.calls && forall h :: h in Takes(a).value ==> h in s.calls[c].held
  }

  lemma MeetInside(x: CallId, y: CallId, a: Access, b: Access) returns (s: State)
    requires x != y && Takes(a).Some? && Takes(b).Some? && !Excludes(a, b)
    ensures Reachable(s) && Inside(s, x, a) && Inside(s, y, b)
  {
    TakesUp(a);
    TakesUp(b);
    var p, q := Takes(a).value, Takes(b).value;
    var s0 := TwoCallsArrive(x, y);
    assert [] + p == p && [] + q == q;
    var s1 := TakesThemAll(s0, x, p);
    forall h | h in q ensures Undisputed(s1, y, h) {}
    s := TakesThemAll(s1, y, q);
  }

  /** Two calls can be inside together exactly if their accesses do not conflict. */
  lemma MeetIffNoConflict(x: CallId, y: CallId, a: Access, b: Access)
    requires x != y && Takes(a).Some? && Takes(b).Some?
    ensures (exists s :: Reachable(s) && Inside(s, x, a) && Inside(s, y, b)) <==> !Conflicts(a, b)
  {
    ExcludesExactly(a, b);
    if Excludes(a, b) {
      forall s | Reachable(s) && Inside(s, x, a) ensures !Inside(s, y, b) {
        if y in s.calls { ExcludedNeverMeet(s, x, y, a, b); }
      }
    } else {
      var s := MeetInside(x, y, a, b);
    }
  }
}
