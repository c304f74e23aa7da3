/**
 * Two-level locking of the persistent indexes: a domain lock shared by all-readers or by
 * resource writers, and one readers-writer lock per resource.
 *
 * Any number of calls run at once.  A call asks for one lock at a time, sleeps on the
 * domain lock's condition variable when it must, and gives its locks back in reverse.
 */
module IndexedLocks {
  import opened Basics
  import opened Sorting

  type CallId = nat

  /** `Turn` is a turn's executionMu. */
  datatype Lock = Turn(id: nat) | Domain(domain: string) | Resource(domain: string, name: string)

  datatype Mode = Read | Write

  datatype Hold = Hold(lock: Lock, mode: Mode)

  /** `announced`: counted among the waiting writers; `asleep`: parked in cond.Wait. */
  datatype Request = Request(lock: Lock, mode: Mode, announced: bool, asleep: bool)

  datatype Call = Call(held: seq<Hold>, want: Option<Request>)

  /** allReaders, activeWriters and waitingWriters of a domain lock; a sync.RWMutex keeps the
      same three, with at most one writer active or announced. */
  datatype LockState = LockState(readers: int, writers: int, waiting: int)

  datatype State = State(calls: map<CallId, Call>, locks: map<Lock, LockState>)

  datatype Step =
    | Arrive(call: CallId)
    | Ask(call: CallId, lock: Lock, mode: Mode)
    | Announce(call: CallId)
    | Try(call: CallId)
    | Release(call: CallId)

  const FREE: LockState := LockState(0, 0, 0)

  const NESTED_DOMAIN := "asset_analysis"

  function At(s: State, l: Lock): LockState { if l in s.locks then s.locks[l] else FREE }

  // ---------------------------------------------------------------- the order of locks

  /** Turns first, then the index domains, then the domain of nested analyses. */
  function Tier(l: Lock): nat {
    if l.Turn? then 0 else if l.domain == NESTED_DOMAIN then 2 else 1
  }

  predicate Below(a: Lock, b: Lock) {
    || Tier(a) < Tier(b)
    || (Tier(a) == Tier(b) && !a.Turn? && !b.Turn? &&
        (|| StringLess(a.domain, b.domain)
         || (a.domain == b.domain && b.Resource? && (a.Domain? || StringLess(a.name, b.name)))))
  }

  lemma BelowTransitive(a: Lock, b: Lock, c: Lock)
    requires Below(a, b) && Below(b, c)
    ensures Below(a, c)
  {
    if !a.Turn? && !b.Turn? && !c.Turn? {
      if StringLess(a.domain, b.domain) && StringLess(b.domain, c.domain) {
        StringLessTransitive(a.domain, b.domain, c.domain);
      }
      if a.Resource? && b.Resource? && c.Resource? && StringLess(a.name, b.name) && StringLess(b.name, c.name) {
        StringLessTransitive(a.name, b.name, c.name);
      }
    }
  }

  lemma BelowIrreflexive(a: Lock)
    ensures !Below(a, a)
  {
    if !a.Turn? { StringLessTotal(a.domain, a.domain); }
    if a.Resource? { StringLessTotal(a.name, a.name); }
  }

  // ---------------------------------------------------------------- steps

  predicate Exclusive(l: Lock) { !l.Domain? }

  /** Whether a request could be granted at once. */
  predicate Grantable(k: LockState, mode: Mode) {
    if mode == Read then k.writers <= 0 && k.waiting <= 0 else k.readers <= 0
  }

  predicate Wants(s: State, c: CallId) { c in s.calls && s.calls[c].want.Some? }

  predicate Enabled(s: State, step: Step) {
    match step
    case Arrive(c) => c !in s.calls
    case Ask(c, lock, mode) =>
      && c in s.calls && s.calls[c].want.None?
      && (forall h :: h in s.calls[c].held ==> Below(h.lock, lock))
    case Announce(c) =>
      && Wants(s, c) && s.calls[c].want.value.mode == Write && !s.calls[c].want.value.announced
      && var l := s.calls[c].want.value.lock;
         (Exclusive(l) ==> At(s, l).writers <= 0 && At(s, l).waiting <= 0)
    case Try(c) =>
      && Wants(s, c) && !s.calls[c].want.value.asleep
      && var r := s.calls[c].want.value;
         (r.mode == Write ==> r.announced)
         && (Exclusive(r.lock) ==> Grantable(At(s, r.lock), r.mode))
    case Release(c) => c in s.calls && s.calls[c].want.None? && s.calls[c].held != []
  }

  function Granted(k: LockState, mode: Mode): LockState {
    if mode == Read then k.(readers := k.readers + 1)
    else k.(waiting := k.waiting - 1, writers := k.writers + 1)
  }

  function Freed(k: LockState, mode: Mode): LockState {
    if mode == Read then k.(readers := k.readers - 1) else k.(writers := k.writers - 1)
  }

  /** endAllRead and endResourceWrite broadcast when their counter reaches zero. */
  predicate Broadcasts(k: LockState, mode: Mode) {
    (if mode == Read then k.readers else k.writers) == 0
  }

  function Woken(call: Call, l: Lock): Call {
    if call.want.Some? && call.want.value.lock == l
    then call.(want := Some(call.want.value.(asleep := false))) else call
  }

  function WakeAll(calls: map<CallId, Call>, l: Lock): map<CallId, Call> {
    map c | c in calls :: Woken(calls[c], l)
  }

  /** One pass of a waiting loop: take the lock, or go to sleep on a domain lock. */
  function Attempt(s: State, c: CallId): State
    requires Wants(s, c)
  {
    var call := s.calls[c];
    var r := call.want.value;
    if Grantable(At(s, r.lock), r.mode) then
      State(s.calls[c := Call(call.held + [Hold(r.lock, r.mode)], None)],
            s.locks[r.lock := Granted(At(s, r.lock), r.mode)])
    else
      s.(calls := s.calls[c := call.(want := Some(r.(asleep := true)))])
  }

  function Announced(s: State, c: CallId): State
    requires Wants(s, c)
  {
    var r := s.calls[c].want.value;
    State(s.calls[c := s.calls[c].(want := Some(r.(announced := true)))],
          s.locks[r.lock := At(s, r.lock).(waiting := At(s, r.lock).waiting + 1)])
  }

  function Do(s: State, step: Step): State
    requires Enabled(s, step)
  {
    match step
    case Arrive(c) => s.(calls := s.calls[c := Call([], None)])
    case Ask(c, lock, mode) =>
      s.(calls := s.calls[c := s.calls[c].(want := Some(Request(lock, mode, false, false)))])
    case Announce(c) =>
      // On a domain lock the announcement and the first check are one section.
      if Exclusive(s.calls[c].want.value.lock) then Announced(s, c)
      else Attempt(Announced(s, c), c)
    case Try(c) => Attempt(s, c)
    case Release(c) =>
      var held := s.calls[c].held;
      var h := held[|held| - 1];
      var k := Freed(At(s, h.lock), h.mode);
      var calls := s.calls[c := Call(held[..|held| - 1], None)];
      State(if Broadcasts(k, h.mode) then WakeAll(calls, h.lock) else calls, s.locks[h.lock := k])
  }

  // ---------------------------------------------------------------- the invariant

  predicate Holds(call: Call, l: Lock, mode: Mode) { Hold(l, mode) in call.held }

  ghost function Holders(calls: map<CallId, Call>, l: Lock, mode: Mode): set<CallId> {
    set c | c in calls && Holds(calls[c], l, mode)
  }

  predicate Waits(call: Call, l: Lock) {
    call.want.Some? && call.want.value.lock == l && call.want.value.announced
  }

  ghost function Waiters(calls: map<CallId, Call>, l: Lock): set<CallId> {
    set c | c in calls && Waits(calls[c], l)
  }

  /** The counters count the calls. */
  ghost predicate Counted(s: State) {
    forall l: Lock ::
      && At(s, l).readers == |Holders(s.calls, l, Read)|
      && At(s, l).writers == |Holders(s.calls, l, Write)|
      && At(s, l).waiting == |Waiters(s.calls, l)|
  }

  predicate Compatible(l: Lock, k: LockState) {
    && (k.readers > 0 ==> k.writers <= 0)
    && (Exclusive(l) ==> k.writers + k.waiting <= 1)
  }

  ghost predicate AllCompatible(s: State) { forall l: Lock :: Compatible(l, At(s, l)) }

  /** Locks are held in ascending order, and the wanted one is above them all. */
  ghost predicate Ascending(call: Call) {
    && (forall i, j :: 0 <= i < j < |call.held| ==> Below(call.held[i].lock, call.held[j].lock))
    && (call.want.Some? ==> forall h :: h in call.held ==> Below(h.lock, call.want.value.lock))
  }

  /** Nobody sleeps through a chance: a sleeper's condition is still false. */
  ghost predicate NoLostWakeup(s: State) {
    forall c :: Wants(s, c) && s.calls[c].want.value.asleep ==>
      var r := s.calls[c].want.value;
      r.lock.Domain? && !Grantable(At(s, r.lock), r.mode) && (r.mode == Write ==> r.announced)
  }

  ghost predicate Polite(s: State) {
    forall c :: c in s.calls ==>
      Ascending(s.calls[c])
      && (s.calls[c].want.Some? && s.calls[c].want.value.announced ==> s.calls[c].want.value.mode == Write)
  }

  ghost predicate Inv(s: State) {
    Counted(s) && AllCompatible(s) && Polite(s) && NoLostWakeup(s)
  }

  // ---------------------------------------------------------------- preservation

  lemma SizeDiffers(a: set<CallId>, b: set<CallId>, c: CallId)
    requires a - {c} == b - {c}
    ensures |a| == |b| + (if c in a then 1 else 0) - (if c in b then 1 else 0)
  {
    assert |a - {c}| == |a| - (if c in a then 1 else 0);
    assert |b - {c}| == |b| - (if c in b then 1 else 0);
  }

  function Bit(b: bool): int { if b then 1 else 0 }

  /** Replacing one call moves it in or out of the sets of holders and waiters. */
  lemma Replace(calls: map<CallId, Call>, c: CallId, call: Call, l: Lock)
    requires c in calls
    ensures var after := calls[c := call];
      && |Holders(after, l, Read)| ==
           |Holders(calls, l, Read)| + Bit(Holds(call, l, Read)) - Bit(Holds(calls[c], l, Read))
      && |Holders(after, l, Write)| ==
           |Holders(calls, l, Write)| + Bit(Holds(call, l, Write)) - Bit(Holds(calls[c], l, Write))
      && |Waiters(after, l)| == |Waiters(calls, l)| + Bit(Waits(call, l)) - Bit(Waits(calls[c], l))
  {
    var after := calls[c := call];
    SizeDiffers(Holders(after, l, Read), Holders(calls, l, Read), c);
    SizeDiffers(Holders(after, l, Write), Holders(calls, l, Write), c);
    SizeDiffers(Waiters(after, l), Waiters(calls, l), c);
  }

  lemma ArriveKeeps(s: State, c: CallId)
    requires Inv(s) && c !in s.calls
    ensures Inv(Do(s, Arrive(c)))
  {
    var s' := Do(s, Arrive(c));
    forall l: Lock ensures Waiters(s'.calls, l) == Waiters(s.calls, l)
      && Holders(s'.calls, l, Read) == Holders(s.calls, l, Read)
      && Holders(s'.calls, l, Write) == Holders(s.calls, l, Write) {}
  }

  lemma AskKeeps(s: State, c: CallId, lock: Lock, mode: Mode)
    requires Inv(s) && Enabled(s, Ask(c, lock, mode))
    ensures Inv(Do(s, Ask(c, lock, mode)))
  {
    var call := s.calls[c].(want := Some(Request(lock, mode, false, false)));
    var s' := s.(calls := s.calls[c := call]);
    forall l: Lock ensures At(s', l) == At(s, l) {}
    forall l: Lock { Replace(s.calls, c, call, l); }
  }

  lemma AnnouncedCounts(s: State, c: CallId)
    requires Inv(s) && Enabled(s, Announce(c))
    ensures Counted(Announced(s, c)) && AllCompatible(Announced(s, c))
  {
    var s' := Announced(s, c);
    var r := s.calls[c].want.value;
    var call := s.calls[c].(want := Some(r.(announced := true)));
    forall l: Lock
      ensures At(s', l).readers == |Holders(s'.calls, l, Read)| && At(s', l).writers == |Holders(s'.calls, l, Write)|
      ensures At(s', l).waiting == |Waiters(s'.calls, l)| && Compatible(l, At(s', l))
    {
      Replace(s.calls, c, call, l);
      assert Compatible(l, At(s, l));
      assert Waits(call, l) <==> l == r.lock;
    }
  }

  lemma AnnouncedKeeps(s: State, c: CallId)
    requires Inv(s) && Enabled(s, Announce(c))
    ensures Inv(Announced(s, c))
  {
    AnnouncedCounts(s, c);
    var s' := Announced(s, c);
    forall d | d in s'.calls && d != c ensures s'.calls[d] == s.calls[d] {}
    assert Polite(s');
  }

  lemma SleepKeeps(s: State, c: CallId)
    requires Inv(s) && Enabled(s, Try(c))
    requires !Grantable(At(s, s.calls[c].want.value.lock), s.calls[c].want.value.mode)
    ensures Inv(Attempt(s, c))
  {
    var s' := Attempt(s, c);
    forall l: Lock ensures At(s', l) == At(s, l) {}
    forall l: Lock { Replace(s.calls, c, s'.calls[c], l); }
  }

  /** Taking a lock keeps the counters right. */
  lemma GrantKeepsCounts(s: State, c: CallId)
    requires Inv(s) && Enabled(s, Try(c))
    requires Grantable(At(s, s.calls[c].want.value.lock), s.calls[c].want.value.mode)
    ensures Counted(Attempt(s, c)) && AllCompatible(Attempt(s, c))
  {
    var s' := Attempt(s, c);
    var call := s.calls[c];
    var r := call.want.value;
    assert Ascending(call);
    forall mode ensures !Holds(call, r.lock, mode) {
      BelowIrreflexive(r.lock);
    }
    forall l: Lock
      ensures At(s', l).readers == |Holders(s'.calls, l, Read)|
        && At(s', l).writers == |Holders(s'.calls, l, Write)|
        && At(s', l).waiting == |Waiters(s'.calls, l)| && Compatible(l, At(s', l))
    {
      Replace(s.calls, c, s'.calls[c], l);
      assert Compatible(l, At(s, l));
    }
  }

  lemma GrantKeepsOrder(s: State, c: CallId)
    requires Inv(s) && Enabled(s, Try(c))
    requires Grantable(At(s, s.calls[c].want.value.lock), s.calls[c].want.value.mode)
    ensures Polite(Attempt(s, c)) && NoLostWakeup(Attempt(s, c))
  {
    var s' := Attempt(s, c);
    var r := s.calls[c].want.value;
    assert Compatible(r.lock, At(s, r.lock));
    assert Ascending(s.calls[c]);
    assert Counted(s);
    if r.mode == Write {
      assert c in Waiters(s.calls, r.lock);
      assert At(s, r.lock).waiting == |Waiters(s.calls, r.lock)|;
    }
    forall x | Wants(s', x) && s'.calls[x].want.value.asleep
      ensures var q := s'.calls[x].want.value;
        q.lock.Domain? && !Grantable(At(s', q.lock), q.mode) && (q.mode == Write ==> q.announced)
    {
      assert Wants(s, x) && s.calls[x] == s'.calls[x];
      assert At(s, r.lock).writers == |Holders(s.calls, r.lock, Write)|;
      assert At(s, r.lock).readers == |Holders(s.calls, r.lock, Read)|;
    }
  }

  lemma AttemptKeeps(s: State, c: CallId)
    requires Inv(s) && Enabled(s, Try(c))
    ensures Inv(Attempt(s, c))
  {
    if Grantable(At(s, s.calls[c].want.value.lock), s.calls[c].want.value.mode) {
      GrantKeepsCounts(s, c);
      GrantKeepsOrder(s, c);
    } else {
      SleepKeeps(s, c);
    }
  }

  lemma WakingMovesNobody(calls: map<CallId, Call>, l: Lock, x: Lock)
    ensures Holders(WakeAll(calls, l), x, Read) == Holders(calls, x, Read)
    ensures Holders(WakeAll(calls, l), x, Write) == Holders(calls, x, Write)
    ensures Waiters(WakeAll(calls, l), x) == Waiters(calls, x)
  {
  }

  /** Giving the topmost lock back, before anybody is woken. */
  ghost function Dropped(s: State, c: CallId): State
    requires Enabled(s, Release(c))
  {
    var held := s.calls[c].held;
    var h := held[|held| - 1];
    State(s.calls[c := Call(held[..|held| - 1], None)], s.locks[h.lock := Freed(At(s, h.lock), h.mode)])
  }

  lemma DroppedKeepsCounts(s: State, c: CallId)
    requires Inv(s) && Enabled(s, Release(c))
    ensures Counted(Dropped(s, c)) && AllCompatible(Dropped(s, c)) && Polite(Dropped(s, c))
  {
    var s' := Dropped(s, c);
    var call := s.calls[c];
    var n := |call.held| - 1;
    var h := call.held[n];
    assert Ascending(call);
    assert call.held == call.held[..n] + [h];
    forall x | x in call.held[..n] ensures x.lock != h.lock {
      var i :| 0 <= i < n && call.held[i] == x;
      assert Below(call.held[i].lock, call.held[n].lock);
      BelowIrreflexive(h.lock);
    }
    forall l: Lock
      ensures At(s', l).readers == |Holders(s'.calls, l, Read)|
        && At(s', l).writers == |Holders(s'.calls, l, Write)|
        && At(s', l).waiting == |Waiters(s'.calls, l)| && Compatible(l, At(s', l))
    {
      Replace(s.calls, c, s'.calls[c], l);
      assert Compatible(l, At(s, l));
      assert forall mode :: Holds(call, l, mode) <==> Hold(l, mode) in call.held[..n] || Hold(l, mode) == h;
    }
  }

  /** Waking all callers of one lock changes nothing but who sleeps on it. */
  lemma WakingKeeps(s: State, l: Lock)
    requires Counted(s) && AllCompatible(s) && Polite(s)
    ensures var s' := s.(calls := WakeAll(s.calls, l)); Counted(s') && AllCompatible(s') && Polite(s')
  {
    var s' := s.(calls := WakeAll(s.calls, l));
    forall x: Lock ensures At(s', x) == At(s, x) {}
    forall x: Lock { WakingMovesNobody(s.calls, l, x); }
    forall x | x in s'.calls ensures Ascending(s'.calls[x]) {
      assert Ascending(s.calls[x]);
    }
  }

  /** Whoever still sleeps after a release sleeps on another lock, or must go on waiting. */
  lemma ReleaseWakes(s: State, c: CallId)
    requires Inv(s) && Enabled(s, Release(c))
    ensures NoLostWakeup(Do(s, Release(c)))
  {
    var h := s.calls[c].held[|s.calls[c].held| - 1];
    var k := At(s, h.lock);
    assert Counted(s) && Compatible(h.lock, k);
    assert k.writers == |Holders(s.calls, h.lock, Write)| && k.readers == |Holders(s.calls, h.lock, Read)|
      && k.waiting == |Waiters(s.calls, h.lock)|;
    assert c in Holders(s.calls, h.lock, h.mode);
    var s' := Do(s, Release(c));
    assert At(s', h.lock) == Freed(k, h.mode);
    forall x | Wants(s', x) && s'.calls[x].want.value.asleep
      ensures var q := s'.calls[x].want.value;
        q.lock.Domain? && !Grantable(At(s', q.lock), q.mode) && (q.mode == Write ==> q.announced)
    {
      assert Wants(s, x) && s.calls[x].want == s'.calls[x].want;
    }
  }

  lemma ReleaseKeeps(s: State, c: CallId)
    requires Inv(s) && Enabled(s, Release(c))
    ensures Inv(Do(s, Release(c)))
  {
    DroppedKeepsCounts(s, c);
    ReleaseWakes(s, c);
    var h := s.calls[c].held[|s.calls[c].held| - 1];
    WakingKeeps(Dropped(s, c), h.lock);
  }

  lemma AnnounceKeeps(s: State, c: CallId)
    requires Inv(s) && Enabled(s, Announce(c))
    ensures Inv(Do(s, Announce(c)))
  {
    AnnouncedKeeps(s, c);
    if !Exclusive(s.calls[c].want.value.lock) {
      assert !s.calls[c].want.value.asleep;
      AttemptKeeps(Announced(s, c), c);
    }
  }

  // ---------------------------------------------------------------- runs

  ghost predicate Run(states: seq<State>, steps: seq<Step>) {
    && |states| == |steps| + 1 && states[0] == State(map[], map[])
    && forall i :: 0 <= i < |steps| ==> Enabled(states[i], steps[i]) && states[i + 1] == Do(states[i], steps[i])
  }

  ghost predicate Reachable(s: State) {
    exists states, steps :: Run(states, steps) && states[|steps|] == s
  }

  /** Every step of every run keeps the invariant. */
  lemma {:induction false} RunInv(states: seq<State>, steps: seq<Step>, i: nat)
    requires Run(states, steps) && i < |states|
    ensures Inv(states[i])
  {
    if i == 0 {
      forall l: Lock ensures Holders(map[], l, Read) == {} && Holders(map[], l, Write) == {}
        && Waiters(map[], l) == {} && At(states[0], l) == FREE {}
    } else {
      RunInv(states, steps, i - 1);
      var s := states[i - 1];
      match steps[i - 1]
      case Arrive(c) => ArriveKeeps(s, c);
      case Ask(c, lock, mode) => AskKeeps(s, c, lock, mode);
      case Announce(c) => AnnounceKeeps(s, c);
      case Try(c) => AttemptKeeps(s, c);
      case Release(c) => ReleaseKeeps(s, c);
    }
  }

  lemma ReachableInv(s: State)
    requires Reachable(s)
    ensures Inv(s)
  {
    var states, steps :| Run(states, steps) && states[|steps|] == s;
    RunInv(states, steps, |steps|);
  }

  /** Nobody holds a lock together with an incompatible holder: no all-reader beside an active
      writer of its domain, no writer of a resource or turn lock beside anybody. */
  lemma MutualExclusion(s: State, a: CallId, b: CallId, l: Lock, mode: Mode)
    requires Reachable(s) && a in s.calls && b in s.calls && a != b
    requires Holds(s.calls[a], l, Write) && Holds(s.calls[b], l, mode)
    ensures l.Domain? && mode == Write
  {
    ReachableInv(s);
    assert Compatible(l, At(s, l)) && Counted(s);
    assert At(s, l).writers == |Holders(s.calls, l, Write)|;
    assert At(s, l).readers == |Holders(s.calls, l, Read)|;
    assert a in Holders(s.calls, l, Write);
    assert mode == Read ==> b in Holders(s.calls, l, Read);
    if mode == Write {
      assert {a, b} <= Holders(s.calls, l, Write);
      Subset({a, b}, Holders(s.calls, l, Write));
    }
  }

  lemma {:induction false} Subset(a: set<CallId>, b: set<CallId>)
    requires a <= b
    ensures |a| <= |b|
  {
    assert b == a + (b - a);
  }

  /** Whoever sleeps on a domain lock still has to wait: every step that makes a request
      grantable wakes the sleepers. */
  lemma NoSleeperMissesItsChance(s: State, c: CallId)
    requires Reachable(s) && Wants(s, c) && s.calls[c].want.value.asleep
    ensures !Grantable(At(s, s.calls[c].want.value.lock), s.calls[c].want.value.mode)
  {
    ReachableInv(s);
  }

  /** Once a writer waits, the readers of the lock only get fewer. */
  lemma WaitingWriterStopsReaders(s: State, step: Step, l: Lock)
    requires Reachable(s) && Enabled(s, step) && At(s, l).waiting > 0
    ensures At(Do(s, step), l).readers <= At(s, l).readers
    ensures At(Do(s, step), l).readers < At(s, l).readers || At(Do(s, step), l).waiting > 0
      || At(s, l).readers == 0
  {
    ReachableInv(s);
  }
}
