/**
 * Deadlock freedom of the index locks, and the order in which Begin asks for them.
 */
module LockOrder {
  import opened Basics
  import opened Sorting
  import opened IndexedLocks

  // ---------------------------------------------------------------- deadlock freedom

  lemma {:induction false} HasMaximal(locks: set<Lock>) returns (top: Lock)
    requires locks != {}
    ensures top in locks && forall l :: l in locks ==> !Below(top, l)
  {
    var l :| l in locks;
    BelowIrreflexive(l);
    if locks == {l} {
      top := l;
    } else {
      var rest := HasMaximal(locks - {l});
      if Below(rest, l) {
        top := l;
        forall x | x in locks ensures !Below(top, x) {
          if Below(l, x) { BelowTransitive(rest, l, x); }
        }
      } else {
        top := rest;
      }
    }
  }

  predicate Unfinished(call: Call) { call.held != [] || call.want.Some? }

  /** A step that takes or gives back a lock, or announces a writer. */
  predicate Progress(s: State, step: Step) {
    && Enabled(s, step)
    && (step.Release? || step.Announce?
        || (step.Try? && var r := s.calls[step.call].want.value; Grantable(At(s, r.lock), r.mode)))
  }

  /** On the topmost wanted lock, with no holder able to step, somebody can be served. */
  lemma TopIsServed(s: State, c: CallId) returns (step: Step)
    requires Inv(s) && Wants(s, c)
    requires At(s, s.calls[c].want.value.lock).readers == 0
    requires At(s, s.calls[c].want.value.lock).writers == 0
    ensures Progress(s, step)
  {
    var r := s.calls[c].want.value;
    assert At(s, r.lock).waiting == |Waiters(s.calls, r.lock)|;
    if At(s, r.lock).waiting > 0 {
      var w :| w in Waiters(s.calls, r.lock);
      assert Wants(s, w) && Ascending(s.calls[w]);
      step := Try(w);
    } else {
      assert c !in Waiters(s.calls, r.lock);
      step := if r.mode == Read then Try(c) else Announce(c);
    }
  }

  lemma HolderSteps(s: State, l: Lock, mode: Mode, c: CallId, top: Lock) returns (step: Step)
    requires Inv(s) && c in Holders(s.calls, l, mode) && l == top
    requires forall x :: Wants(s, x) ==> !Below(top, s.calls[x].want.value.lock)
    ensures Progress(s, step)
  {
    assert Ascending(s.calls[c]) && Hold(l, mode) in s.calls[c].held;
    step := Release(c);
  }

  /** In every reachable state with an unfinished call some call can step: all asked in
      ascending order, so nobody waits in a circle, even behind waiting writers. */
  lemma DeadlockFree(s: State, c: CallId) returns (step: Step)
    requires Reachable(s) && c in s.calls && Unfinished(s.calls[c])
    ensures Progress(s, step)
  {
    ReachableInv(s);
    if s.calls[c].want.None? {
      return Release(c);
    }
    var wanted := set x | x in s.calls && s.calls[x].want.Some? :: s.calls[x].want.value.lock;
    assert s.calls[c].want.value.lock in wanted;
    var top := HasMaximal(wanted);
    var t :| Wants(s, t) && s.calls[t].want.value.lock == top;
    assert At(s, top).readers == |Holders(s.calls, top, Read)|;
    assert At(s, top).writers == |Holders(s.calls, top, Write)|;
    if x :| x in Holders(s.calls, top, Read) {
      step := HolderSteps(s, top, Read, x, top);
    } else if x :| x in Holders(s.calls, top, Write) {
      step := HolderSteps(s, top, Write, x, top);
    } else {
      step := TopIsServed(s, t);
    }
  }

  // ---------------------------------------------------------------- what Begin asks for

  datatype Access = Access(domain: string, resources: seq<string>, writeResource: bool, allResources: bool)

  /** indexLocks: sorted, without repetitions; the empty name is skipped with them. */
  function Distinct(names: seq<string>, previous: string): seq<string> {
    if names == [] then []
    else if names[0] == previous then Distinct(names[1..], previous)
    else [names[0]] + Distinct(names[1..], names[0])
  }

  function LockNames(resources: seq<string>): seq<string> {
    Distinct(StableSort(resources, StringLess), "")
  }

  function Each(domain: string, names: seq<string>): seq<Hold> {
    seq(|names|, i requires 0 <= i < |names| => Hold(Resource(domain, names[i]), Read))
  }

  /** The locks one access takes, in order; a write without a resource panics. */
  function Takes(a: Access): Option<seq<Hold>> {
    var names := LockNames(a.resources);
    if a.allResources then Some([Hold(Domain(a.domain), Read)])
    else if a.writeResource then
      if names == [] then None
      else Some([Hold(Domain(a.domain), Write), Hold(Resource(a.domain, names[0]), Write)])
    else Some(Each(a.domain, names))
  }

  predicate DomainLess(a: Access, b: Access) { StringLess(a.domain, b.domain) }

  function TakesAll(accesses: seq<Access>): Option<seq<Hold>> {
    if accesses == [] then Some([])
    else
      match Takes(accesses[0])
      case None => None
      case Some(first) =>
        match TakesAll(accesses[1..])
        case None => None
        case Some(rest) => Some(first + rest)
  }

  function BeginTakes(accesses: seq<Access>): Option<seq<Hold>> {
    TakesAll(StableSort(accesses, DomainLess))
  }

  lemma StringOrderIsWeak()
    ensures WeakOrder(StringLess)
    ensures WeakOrder(DomainLess)
  {
    forall a, b ensures StringLess(a, b) ==> !StringLess(b, a) { StringLessTotal(a, b); }
    forall a, b, c | !StringLess(b, a) && !StringLess(c, b) ensures !StringLess(c, a) {
      StringLessTotal(a, b);
      StringLessTotal(b, c);
      StringLessTotal(a, c);
      if StringLess(a, b) && StringLess(b, c) { StringLessTransitive(a, b, c); }
    }
  }

  ghost predicate StrictlyUp(names: seq<string>) {
    forall i, j :: 0 <= i < j < |names| ==> StringLess(names[i], names[j])
  }

  /** Removing repetitions from a sorted list leaves it strictly ascending, and loses nothing
      but the name that came before. */
  lemma {:induction false} DistinctAscends(names: seq<string>, previous: string)
    requires Sorted(names, StringLess) && forall i :: 0 <= i < |names| ==> !StringLess(names[i], previous)
    ensures StrictlyUp(Distinct(names, previous))
    ensures forall n :: n in Distinct(names, previous) <==> n in names && n != previous
    ensures forall n :: n in Distinct(names, previous) ==> StringLess(previous, n)
  {
    if names != [] {
      assert names == [names[0]] + names[1..];
      DistinctAscends(names[1..], names[0]);
      StringLessTotal(names[0], previous);
      if names[0] != previous {
        var rest := Distinct(names[1..], names[0]);
        forall n | n in rest ensures StringLess(previous, n) && n != previous {
          StringLessTransitive(previous, names[0], n);
          StringLessTotal(previous, n);
        }
        forall n ensures n in [names[0]] + rest <==> n in names && n != previous {}
      }
    }
  }

  /** The names of the resource locks: every non-empty resource once, strictly ascending. */
  lemma LockNamesAre(resources: seq<string>)
    ensures StrictlyUp(LockNames(resources))
    ensures forall n :: n in LockNames(resources) <==> n in resources && n != ""
  {
    StringOrderIsWeak();
    SortSorts(resources, StringLess);
    SortKeepsElements(resources, StringLess);
    DistinctAscends(StableSort(resources, StringLess), "");
  }

  ghost predicate LocksUp(holds: seq<Hold>) {
    forall i, j :: 0 <= i < j < |holds| ==> Below(holds[i].lock, holds[j].lock)
  }

  lemma TakesUp(a: Access)
    requires Takes(a).Some?
    ensures LocksUp(Takes(a).value)
    ensures forall h :: h in Takes(a).value ==> !h.lock.Turn? && h.lock.domain == a.domain
  {
    LockNamesAre(a.resources);
  }

  lemma {:induction false} TakesAllUp(accesses: seq<Access>)
    requires Sorted(accesses, DomainLess) && TakesAll(accesses).Some?
    requires forall i, j :: 0 <= i < j < |accesses| ==> accesses[i].domain != accesses[j].domain
    requires |accesses| > 1 ==> forall a :: a in accesses ==> a.domain != NESTED_DOMAIN
    ensures LocksUp(TakesAll(accesses).value)
    ensures forall h :: h in TakesAll(accesses).value ==>
      !h.lock.Turn? && exists a :: a in accesses && h.lock.domain == a.domain
  {
    if accesses != [] {
      TakesUp(accesses[0]);
      TakesAllUp(accesses[1..]);
      var first, rest := Takes(accesses[0]).value, TakesAll(accesses[1..]).value;
      forall x, y | x in first && y in rest ensures Below(x.lock, y.lock) {
        var i :| 0 <= i < |accesses[1..]| && accesses[1..][i].domain == y.lock.domain;
        assert accesses[i + 1].domain == y.lock.domain && accesses[i + 1] in accesses && accesses[0] in accesses;
        StringLessTotal(accesses[0].domain, accesses[i + 1].domain);
      }
      forall i, j | 0 <= i < j < |first + rest|
        ensures Below((first + rest)[i].lock, (first + rest)[j].lock)
      {
        assert i < |first| ==> (first + rest)[i] in first;
        assert j >= |first| ==> (first + rest)[j] in rest;
      }
    }
  }

  /** If a call names each domain at most once, every lock Begin asks for is above all those
      it already holds: the discipline that DeadlockFree rests on. */
  lemma BeginAsksUpward(accesses: seq<Access>)
    requires BeginTakes(accesses).Some?
    requires forall i, j :: 0 <= i < j < |accesses| ==> accesses[i].domain != accesses[j].domain
    requires |accesses| > 1 ==> forall a :: a in accesses ==> a.domain != NESTED_DOMAIN
    ensures LocksUp(BeginTakes(accesses).value)
    ensures forall h, turn :: h in BeginTakes(accesses).value ==> Below(Turn(turn), h.lock)
  {
    StringOrderIsWeak();
    SortSorts(accesses, DomainLess);
    SortKeepsElements(accesses, DomainLess);
    var sorted := StableSort(accesses, DomainLess);
    forall i, j | 0 <= i < j < |sorted| ensures sorted[i].domain != sorted[j].domain {
      if sorted[i].domain == sorted[j].domain {
        DistinctInSort(accesses, sorted, i, j);
      }
    }
    TakesAllUp(sorted);
  }

  ghost function InDomain(s: seq<Access>, d: string): multiset<Access> {
    if s == [] then multiset{} else (if s[0].domain == d then multiset{s[0]} else multiset{}) + InDomain(s[1..], d)
  }

  /** A permutation cannot bring two accesses into one domain. */
  lemma DistinctInSort(accesses: seq<Access>, sorted: seq<Access>, i: nat, j: nat)
    requires multiset(accesses) == multiset(sorted) && i < j < |sorted|
    requires forall a, b :: 0 <= a < b < |accesses| ==> accesses[a].domain != accesses[b].domain
    ensures sorted[i].domain != sorted[j].domain
  {
    assert sorted[i] in multiset(accesses) && sorted[j] in multiset(accesses);
    if sorted[i] == sorted[j] {
      assert sorted == sorted[..i] + [sorted[i]] + sorted[i + 1..j] + [sorted[j]] + sorted[j + 1..];
      assert multiset(sorted)[sorted[i]] >= 2;
      OnceEach(accesses, sorted[i]);
    }
  }

  lemma {:induction false} OnceEach(accesses: seq<Access>, x: Access)
    requires forall a, b :: 0 <= a < b < |accesses| ==> accesses[a].domain != accesses[b].domain
    ensures multiset(accesses)[x] <= 1
  {
    if accesses != [] {
      OnceEach(accesses[1..], x);
      assert accesses == [accesses[0]] + accesses[1..];
      if x == accesses[0] {
        assert x !in accesses[1..];
      }
    }
  }

  // ---------------------------------------------------------------- what excludes what

  ghost predicate Clash(a: seq<Hold>, b: seq<Hold>) {
    exists x, y :: x in a && y in b && Incompatible(x, y)
  }

  predicate Incompatible(x: Hold, y: Hold) {
    && x.lock == y.lock && (x.mode == Write || y.mode == Write)
    && !(x.lock.Domain? && x.mode == Write && y.mode == Write)
  }

  /** Two accesses exclude each other when they need one lock in modes that cannot meet. */
  ghost predicate Excludes(a: Access, b: Access)
    requires Takes(a).Some? && Takes(b).Some?
  {
    Clash(Takes(a).value, Takes(b).value)
  }

  lemma EachHolds(domain: string, names: seq<string>, h: Hold)
    ensures h in Each(domain, names) <==>
      h.mode == Read && h.lock.Resource? && h.lock.domain == domain && h.lock.name in names
  {
    if h.mode == Read && h.lock.Resource? && h.lock.domain == domain && h.lock.name in names {
      var i :| 0 <= i < |names| && names[i] == h.lock.name;
      assert Each(domain, names)[i] == h;
    }
  }

  function WriteTakes(domain: string, name: string): seq<Hold> {
    [Hold(Domain(domain), Write), Hold(Resource(domain, name), Write)]
  }

  lemma WriterMeetsReader(d: string, n: string, e: string, names: seq<string>)
    ensures Clash(WriteTakes(d, n), Each(e, names)) <==> d == e && n in names
  {
    if d == e && n in names {
      EachHolds(e, names, Hold(Resource(d, n), Read));
      assert Incompatible(Hold(Resource(d, n), Write), Hold(Resource(d, n), Read));
    }
    if Clash(WriteTakes(d, n), Each(e, names)) {
      var x, y :| x in WriteTakes(d, n) && y in Each(e, names) && Incompatible(x, y);
      EachHolds(e, names, y);
    }
  }

  lemma WriterMeetsOthers(d: string, n: string, e: string, m: string)
    ensures Clash(WriteTakes(d, n), [Hold(Domain(e), Read)]) <==> d == e
    ensures Clash(WriteTakes(d, n), WriteTakes(e, m)) <==> d == e && n == m
  {
    if d == e {
      assert Incompatible(Hold(Domain(d), Write), Hold(Domain(d), Read));
      assert Hold(Domain(e), Read) in [Hold(Domain(e), Read)];
    }
    if d == e && n == m {
      assert Incompatible(Hold(Resource(d, n), Write), Hold(Resource(e, m), Write));
    }
  }

  lemma NamesMember(resources: seq<string>, n: string)
    ensures n in LockNames(resources) <==> n in resources && n != ""
  {
    LockNamesAre(resources);
  }

  /** A write access excludes, in its domain, exactly the all-readers and whoever names the
      first of its resources: for a single-resource write, everybody who touches it. */
  lemma WriteExcludesExactly(a: Access, b: Access)
    requires a.writeResource && !a.allResources && Takes(a).Some? && Takes(b).Some?
    ensures Excludes(a, b) <==>
      a.domain == b.domain
      && (b.allResources
          || (b.writeResource && LockNames(a.resources)[0] == LockNames(b.resources)[0])
          || (!b.writeResource && LockNames(a.resources)[0] in b.resources))
  {
    var n := LockNames(a.resources)[0];
    assert Takes(a).value == WriteTakes(a.domain, n);
    assert n in LockNames(a.resources);
    NamesMember(a.resources, n);
    NamesMember(b.resources, n);
    WriterMeetsReader(a.domain, n, b.domain, LockNames(b.resources));
    WriterMeetsOthers(a.domain, n, b.domain, if b.allResources || !b.writeResource then "" else LockNames(b.resources)[0]);
  }

  lemma SingleName(r: string)
    requires r != ""
    ensures LockNames([r]) == [r]
  {
    LockNamesAre([r]);
    var names := LockNames([r]);
    assert r in names;
    forall i | 0 <= i < |names| ensures names[i] == r {
      assert names[i] in names && names[i] in [r];
    }
    if |names| > 1 {
      StringLessTotal(names[0], names[1]);
    }
  }

  /** Two calls that exclude each other are never inside together. */
  lemma ExcludedNeverMeet(s: State, x: CallId, y: CallId, a: Access, b: Access)
    requires Reachable(s) && x in s.calls && y in s.calls && x != y
    requires Takes(a).Some? && Takes(b).Some? && Excludes(a, b)
    requires forall h :: h in Takes(a).value ==> h in s.calls[x].held
    ensures exists h :: h in Takes(b).value && h !in s.calls[y].held
  {
    var p, q :| p in Takes(a).value && q in Takes(b).value && Incompatible(p, q);
    if q in s.calls[y].held {
      if p.mode == Write {
        MutualExclusion(s, x, y, p.lock, q.mode);
      } else {
        MutualExclusion(s, y, x, q.lock, p.mode);
      }
    }
  }

  /** Beyond its first resource a write excludes nobody: a write of two resources and a read of
      the second one take no lock in common. */
  lemma SecondResourceIsOpen()
    ensures
      var a, b := Access("shots", ["a", "b"], true, false), Access("shots", ["b"], false, false);
      Takes(a).Some? && Takes(b).Some? && !Excludes(a, b)
  {
    var a, b := Access("shots", ["a", "b"], true, false), Access("shots", ["b"], false, false);
    assert StringLess("a", "b");
    assert Sorted(["a", "b"], StringLess) by { StringLessTotal("a", "b"); }
    SortIsStable(["a", "b"], StringLess);
    assert ["a", "b"][1..] == ["b"];
    assert LockNames(["a", "b"])[0] == "a";
    SingleName("b");
    WriteExcludesExactly(a, b);
    assert "a" !in ["b"] by { assert "a"[0] != "b"[0]; }
  }
}
