/**
 * The lock objects updated in place: each method is one section under the domain lock's
 * mutex, or one loop of the coordinator, proved against IndexedLocks and LockOrder.
 */
module IndexedResourceCoordinators {
  import opened Basics
  import opened Sorting
  import opened IndexedLocks
  import opened LockOrder

  class IndexedDomainLock {
    var allReaders: int
    var activeWriters: int
    var waitingWriters: int

    function View(): LockState
      reads this
    {
      LockState(allReaders, activeWriters, waitingWriters)
    }

    constructor ()
      ensures View() == FREE
    {
      allReaders, activeWriters, waitingWriters := 0, 0, 0;
    }

    /** One pass of beginAllRead's loop; without a grant the caller waits on the condition. */
    method PassAllRead() returns (granted: bool)
      modifies this
      ensures granted == Grantable(old(View()), Read)
      ensures View() == if granted then Granted(old(View()), Read) else old(View())
    {
      if activeWriters > 0 || waitingWriters > 0 {
        return false;
      }
      allReaders := allReaders + 1;
      granted := true;
    }

    method EndAllRead() returns (broadcast: bool)
      modifies this
      ensures View() == Freed(old(View()), Read) && broadcast == Broadcasts(View(), Read)
    {
      allReaders := allReaders - 1;
      broadcast := allReaders == 0;
    }

    method AnnounceResourceWrite()
      modifies this
      ensures View() == old(View()).(waiting := old(View()).waiting + 1)
    {
      waitingWriters := waitingWriters + 1;
    }

    /** One pass of beginResourceWrite's loop. */
    method PassResourceWrite() returns (granted: bool)
      modifies this
      ensures granted == Grantable(old(View()), Write)
      ensures View() == if granted then Granted(old(View()), Write) else old(View())
    {
      if allReaders > 0 {
        return false;
      }
      waitingWriters := waitingWriters - 1;
      activeWriters := activeWriters + 1;
      granted := true;
    }

    method EndResourceWrite() returns (broadcast: bool)
      modifies this
      ensures View() == Freed(old(View()), Write) && broadcast == Broadcasts(View(), Write)
    {
      activeWriters := activeWriters - 1;
      broadcast := activeWriters == 0;
    }
  }

  /** The key of a resource lock. */
  function Key(domain: string, name: string): string { domain + "\0" + name }

  /** Resources of different domains or names never share a lock. */
  lemma {:induction false} KeysDiffer(d: string, n: string, e: string, m: string)
    requires '\0' !in d && '\0' !in e && Key(d, n) == Key(e, m)
    ensures d == e && n == m
  {
    var k := Key(d, n);
    assert k[|d|] == '\0' && k[|e|] == '\0';
    assert forall i :: 0 <= i < |d| ==> k[i] == d[i] && d[i] in d;
    assert forall i :: 0 <= i < |e| ==> k[i] == e[i] && e[i] in e;
    assert |d| == |e|;
    assert d == k[..|d|] && e == k[..|e|];
    assert n == k[|d| + 1..] && m == k[|e| + 1..];
  }

  class IndexedResourceCoordinator {
    var resourceLocks: map<string, nat>

    ghost predicate Valid()
      reads this
    {
      && (forall k :: k in resourceLocks ==> resourceLocks[k] < |resourceLocks|)
      && (forall j, k :: j in resourceLocks && k in resourceLocks && resourceLocks[j] == resourceLocks[k] ==> j == k)
    }

    constructor ()
      ensures Valid() && resourceLocks == map[]
    {
      resourceLocks := map[];
    }

    method GetOrCreate(key: string)
      requires Valid()
      modifies this
      ensures Valid() && key in resourceLocks
      ensures forall k :: k in old(resourceLocks) ==> k in resourceLocks && resourceLocks[k] == old(resourceLocks)[k]
      ensures forall k :: k in resourceLocks ==> k in old(resourceLocks) || k == key
    {
      if key !in resourceLocks {
        resourceLocks := resourceLocks[key := |resourceLocks|];
      }
    }

    /** indexLocks: the lock names of an access, each with its one lock for the whole process. */
    method IndexLocks(domain: string, resources: seq<string>) returns (names: seq<string>)
      requires Valid()
      modifies this
      ensures Valid() && names == LockNames(resources)
      ensures forall n :: n in names ==> Key(domain, n) in resourceLocks
      ensures forall k :: k in old(resourceLocks) ==> k in resourceLocks && resourceLocks[k] == old(resourceLocks)[k]
    {
      var sorted := StableSort(resources, StringLess);
      names := [];
      var previous := "";
      for i := 0 to |sorted|
        invariant Valid()
        invariant names + Distinct(sorted[i..], previous) == LockNames(resources)
        invariant forall n :: n in names ==> Key(domain, n) in resourceLocks
        invariant forall k :: k in old(resourceLocks) ==> k in resourceLocks && resourceLocks[k] == old(resourceLocks)[k]
      {
        var rest := sorted[i..];
        assert rest[0] == sorted[i] && rest[1..] == sorted[i + 1..];
        if sorted[i] == previous {
          continue;
        }
        previous := sorted[i];
        GetOrCreate(Key(domain, previous));
        names := names + [previous];
      }
    }

    /** The locks of one access. */
    method Acquire(access: Access) returns (taken: Option<seq<Hold>>)
      requires Valid()
      modifies this
      ensures Valid() && taken == Takes(access)
    {
      var names := IndexLocks(access.domain, access.resources);
      if access.allResources {
        taken := Some([Hold(Domain(access.domain), Read)]);
      } else if access.writeResource {
        if names == [] {
          return None;
        }
        taken := Some([Hold(Domain(access.domain), Write), Hold(Resource(access.domain, names[0]), Write)]);
      } else {
        taken := Some(Each(access.domain, names));
      }
    }

    /** Begin: what a call asks for, access after access, in the order of the domains.  The
        result is None where the source would panic. */
    method Begin(accesses: seq<Access>) returns (taken: Option<seq<Hold>>)
      requires Valid()
      modifies this
      ensures Valid() && taken == BeginTakes(accesses)
    {
      taken := BeginSorted(StableSort(accesses, DomainLess));
    }

    method BeginSorted(sorted: seq<Access>) returns (taken: Option<seq<Hold>>)
      requires Valid()
      modifies this
      ensures Valid() && taken == TakesAll(sorted)
    {
      var held: seq<Hold> := [];
      PrependNothing(TakesAll(sorted));
      assert sorted[0..] == sorted;
      for i := 0 to |sorted|
        invariant Valid()
        invariant TakesAll(sorted) == Prepend(held, TakesAll(sorted[i..]))
      {
        TakesFirst(sorted[i..]);
        assert sorted[i..][1..] == sorted[i + 1..];
        var first := Acquire(sorted[i]);
        if first.None? {
          return None;
        }
        PrependTwice(held, first.value, TakesAll(sorted[i + 1..]));
        held := held + first.value;
      }
      PrependLast(held);
      taken := Some(held);
    }
  }

  lemma TakesFirst(accesses: seq<Access>)
    requires accesses != []
    ensures Takes(accesses[0]).None? ==> TakesAll(accesses).None?
    ensures Takes(accesses[0]).Some? ==> TakesAll(accesses) == Prepend(Takes(accesses[0]).value, TakesAll(accesses[1..]))
  {
  }

  lemma PrependNothing(rest: Option<seq<Hold>>)
    ensures Prepend([], rest) == rest
  {
    if rest.Some? {
      assert [] + rest.value == rest.value;
    }
  }

  lemma PrependLast(held: seq<Hold>)
    ensures Prepend(held, TakesAll([])) == Some(held)
  {
    assert held + [] == held;
  }

  function Prepend(held: seq<Hold>, rest: Option<seq<Hold>>): Option<seq<Hold>> {
    match rest case None => None case Some(more) => Some(held + more)
  }

  lemma PrependTwice(a: seq<Hold>, b: seq<Hold>, rest: Option<seq<Hold>>)
    ensures Prepend(a, Prepend(b, rest)) == Prepend(a + b, rest)
  {
    if rest.Some? {
      assert a + (b + rest.value) == a + b + rest.value;
    }
  }
}
