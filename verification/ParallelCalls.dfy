/**
 * The routing decision is sound: calls that may run in parallel leave the same store and
 * give the same answers in every order.
 */
module ParallelCalls {
  import opened Basics
  import opened IndexedLocks
  import opened LockOrder
  import opened IndexedResourceCoordinators
  import opened ToolRouter

  type StoreKey = (string, string)

  /** The persistent index: a value per domain and resource. */
  type Store = map<StoreKey, int>

  /** What a call answers, and what a detector stores if it succeeds. */
  datatype Outcome = Outcome(answer: int, update: Option<int>)

  datatype Job = Job(route: Route, work: Store -> Outcome)

  predicate Touches(r: Route, k: StoreKey) {
    match r
    case Reader(keys) => Key(k.0, k.1) in keys || Key(k.0, "*") in keys
    case Detector(a) => |a.resources| == 1 && k == (a.domain, a.resources[0])
    case Serial => true
  }

  predicate Agree(s: Store, t: Store, k: StoreKey) {
    (k in s <==> k in t) && (k in s && k in t ==> s[k] == t[k])
  }

  ghost predicate AgreeOn(s: Store, t: Store, r: Route) {
    forall k :: Touches(r, k) ==> Agree(s, t, k)
  }

  /** The call looks at nothing outside its footprint. */
  ghost predicate Faithful(job: Job) {
    forall s, t :: AgreeOn(s, t, job.route) ==> job.work(s) == job.work(t)
  }

  predicate Sets(job: Job, s: Store, k: StoreKey) {
    job.route.Detector? && Touches(job.route, k) && job.work(s).update.Some?
  }

  function Apply(job: Job, s: Store): Store {
    if job.route.Detector? && |job.route.access.resources| == 1 && job.work(s).update.Some?
    then s[(job.route.access.domain, job.route.access.resources[0]) := job.work(s).update.value]
    else s
  }

  /** The store after the calls ran one after another. */
  function After(jobs: seq<Job>, s: Store): Store {
    if jobs == [] then s
    else Apply(jobs[|jobs| - 1], After(jobs[..|jobs| - 1], s))
  }

  /** What `a` writes is nothing that `b` looks at. */
  ghost predicate Apart(a: Route, b: Route) {
    a.Detector? ==> forall k :: Touches(a, k) ==> !Touches(b, k)
  }

  ghost predicate Independent(jobs: seq<Job>) {
    && (forall i :: 0 <= i < |jobs| ==> Faithful(jobs[i]))
    && (forall i, j :: 0 <= i < |jobs| && 0 <= j < |jobs| && i != j ==> Apart(jobs[i].route, jobs[j].route))
  }

  lemma {:induction false} OthersDoNotDisturb(jobs: seq<Job>, s: Store, r: Route)
    requires forall i :: 0 <= i < |jobs| ==> Apart(jobs[i].route, r)
    ensures AgreeOn(After(jobs, s), s, r)
  {
    if jobs != [] {
      var n := |jobs| - 1;
      OthersDoNotDisturb(jobs[..n], s, r);
      assert Apart(jobs[n].route, r);
    }
  }

  /** Every call sees the store as it was at the start. */
  lemma SeesTheStart(jobs: seq<Job>, s: Store, i: nat)
    requires Independent(jobs) && i < |jobs|
    ensures jobs[i].work(After(jobs[..i], s)) == jobs[i].work(s)
  {
    forall j | 0 <= j < |jobs[..i]| ensures Apart(jobs[..i][j].route, jobs[i].route) {
      assert jobs[..i][j] == jobs[j];
    }
    OthersDoNotDisturb(jobs[..i], s, jobs[i].route);
    assert Faithful(jobs[i]);
  }

  lemma IndependentPrefix(jobs: seq<Job>, n: nat)
    requires Independent(jobs) && n <= |jobs|
    ensures Independent(jobs[..n])
  {
    forall i, j | 0 <= i < n && 0 <= j < n && i != j ensures Apart(jobs[..n][i].route, jobs[..n][j].route) {
      assert Apart(jobs[i].route, jobs[j].route);
    }
  }

  /** The final value of a key: what its one detector stored, or what was there. */
  lemma {:induction false} FinalValue(jobs: seq<Job>, s: Store, k: StoreKey)
    requires Independent(jobs)
    ensures forall i :: 0 <= i < |jobs| && Sets(jobs[i], s, k) ==>
      k in After(jobs, s) && After(jobs, s)[k] == jobs[i].work(s).update.value
    ensures (forall i :: 0 <= i < |jobs| ==> !Sets(jobs[i], s, k)) ==> Agree(After(jobs, s), s, k)
  {
    if jobs != [] {
      var n := |jobs| - 1;
      var init := jobs[..n];
      IndependentPrefix(jobs, n);
      FinalValue(init, s, k);
      SeesTheStart(jobs, s, n);
      forall i | 0 <= i < n ensures init[i] == jobs[i] && !(Sets(jobs[i], s, k) && Sets(jobs[n], s, k)) {
        assert Apart(jobs[i].route, jobs[n].route);
      }
      if forall i :: 0 <= i < |jobs| ==> !Sets(jobs[i], s, k) {
        assert forall i :: 0 <= i < n ==> !Sets(init[i], s, k);
        assert !Sets(jobs[n], s, k);
      }
    }
  }

  /** A permutation keeps independence. */
  lemma PermutedIndependent(jobs: seq<Job>, order: seq<Job>)
    requires Independent(jobs) && multiset(jobs) == multiset(order)
    ensures Independent(order)
  {
    forall i | 0 <= i < |order| ensures order[i] in jobs {
      assert order[i] in multiset(order);
    }
    forall i, j | 0 <= i < |order| && 0 <= j < |order| && i != j
      ensures Apart(order[i].route, order[j].route)
    {
      assert order[i] in jobs && order[j] in jobs;
      if order[i] == order[j] {
        TwiceIn(order, i, j);
        var a, b := TwoPlaces(jobs, order[i]);
        assert Apart(jobs[a].route, jobs[b].route);
      } else {
        var a :| 0 <= a < |jobs| && jobs[a] == order[i];
        var b :| 0 <= b < |jobs| && jobs[b] == order[j];
        assert Apart(jobs[a].route, jobs[b].route);
      }
    }
  }

  lemma TwiceIn(s: seq<Job>, i: nat, j: nat)
    requires i < |s| && j < |s| && i != j && s[i] == s[j]
    ensures multiset(s)[s[i]] >= 2
  {
    var a, b := if i < j then i else j, if i < j then j else i;
    assert s == s[..a] + [s[a]] + s[a + 1..b] + [s[b]] + s[b + 1..];
  }

  lemma {:induction false} TwoPlaces(s: seq<Job>, x: Job) returns (a: nat, b: nat)
    requires multiset(s)[x] >= 2
    ensures a < b < |s| && s[a] == x == s[b]
  {
    assert s == [s[0]] + s[1..];
    if s[0] == x {
      assert x in multiset(s[1..]);
      a := 0;
      var j :| 0 <= j < |s[1..]| && s[1..][j] == x;
      b := j + 1;
    } else {
      a, b := TwoPlaces(s[1..], x);
      a, b := a + 1, b + 1;
    }
  }

  lemma SameFinalValue(jobs: seq<Job>, order: seq<Job>, s: Store, k: StoreKey)
    requires Independent(jobs) && Independent(order) && multiset(jobs) == multiset(order)
    ensures Agree(After(jobs, s), After(order, s), k)
  {
    FinalValue(jobs, s, k);
    FinalValue(order, s, k);
    if i :| 0 <= i < |jobs| && Sets(jobs[i], s, k) {
      assert jobs[i] in multiset(order);
      var j :| 0 <= j < |order| && order[j] == jobs[i];
      assert Sets(order[j], s, k);
    } else {
      forall j | 0 <= j < |order| ensures !Sets(order[j], s, k) {
        assert order[j] in multiset(jobs);
      }
    }
  }

  lemma AgreeEverywhere(s: Store, t: Store)
    requires forall k :: Agree(s, t, k)
    ensures s == t
  {
    forall k ensures k in s <==> k in t { assert Agree(s, t, k); }
    forall k | k in s ensures s[k] == t[k] { assert Agree(s, t, k); }
  }

  /** In every order independent calls leave the same store, and every call answers what it
      would have answered at the start. */
  lemma AnyOrderIsTheSame(jobs: seq<Job>, order: seq<Job>, s: Store)
    requires Independent(jobs) && multiset(jobs) == multiset(order)
    ensures After(order, s) == After(jobs, s)
    ensures forall i :: 0 <= i < |order| ==> order[i].work(After(order[..i], s)) == order[i].work(s)
  {
    PermutedIndependent(jobs, order);
    forall k ensures Agree(After(jobs, s), After(order, s), k) {
      SameFinalValue(jobs, order, s, k);
    }
    AgreeEverywhere(After(jobs, s), After(order, s));
    forall i | 0 <= i < |order| ensures order[i].work(After(order[..i], s)) == order[i].work(s) {
      SeesTheStart(order, s, i);
    }
  }

  // ---------------------------------------------------------------- the routed calls

  lemma FootprintDomains(call: ToolCall, a: Access)
    requires a in Footprint(call).0
    ensures '\0' !in a.domain
  {
    assert a.domain == "shots" || a.domain == "speech";
  }

  /** A call does what its route says, looking only at its footprint. */
  ghost predicate Implements(job: Job, specs: map<string, Spec>, call: ToolCall) {
    job.route == RouteOf(specs, call) && Faithful(job)
  }

  lemma RoutedApart(specs: map<string, Spec>, calls: seq<ToolCall>, i: nat, j: nat)
    requires Parallel(Routes(specs, calls)) && i < |calls| && j < |calls| && i != j
    ensures Apart(RouteOf(specs, calls[i]), RouteOf(specs, calls[j]))
  {
    var routes := Routes(specs, calls);
    RoutesAt(specs, calls, i);
    RoutesAt(specs, calls, j);
    var a, b := routes[i], routes[j];
    if a.Detector? {
      var key := DetectKey(a.access);
      assert Writes(a, key);
      if b.Reader? {
        assert ReadsFree(b.keys, key);
        FootprintDomains(calls[i], a.access);
        CutKey(a.access.domain, a.access.resources[0]);
      } else {
        assert b.Detector? && !Writes(b, key);
      }
    }
  }

  /** When the router runs a message's calls in parallel, every order of them gives the same
      store and the same answers. */
  lemma ParallelIsSafe(specs: map<string, Spec>, calls: seq<ToolCall>, jobs: seq<Job>, order: seq<Job>, s: Store)
    requires Parallel(Routes(specs, calls)) && |jobs| == |calls|
    requires forall i :: 0 <= i < |jobs| ==> Implements(jobs[i], specs, calls[i])
    requires multiset(jobs) == multiset(order)
    ensures After(order, s) == After(jobs, s)
    ensures forall i :: 0 <= i < |order| ==> order[i].work(After(order[..i], s)) == order[i].work(s)
  {
    forall i, j | 0 <= i < |jobs| && 0 <= j < |jobs| && i != j
      ensures Apart(jobs[i].route, jobs[j].route)
    {
      RoutedApart(specs, calls, i, j);
    }
    AnyOrderIsTheSame(jobs, order, s);
  }
}
