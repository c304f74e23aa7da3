/**
 * Who is owed the end of a turn: pending and failed clients, recovery generations,
 * acknowledgements, and the eviction of recovery buffers.
 */
module StreamRecovery {
  import opened ReplayBuffer
  import opened StreamDelivery

  type Draft = string
  type Client = string

  datatype Subscriber = Subscriber(recoverable: bool, client: Client)

  datatype DraftBuffer = DraftBuffer(
    buffer: Buffer,
    generation: nat,
    pending: map<StreamId, Client>,
    failed: set<Client>)

  datatype Hub = Hub(
    buffers: map<Draft, DraftBuffer>,
    subs: map<Draft, map<StreamId, Subscriber>>,
    active: set<Draft>,
    failed: map<Draft, set<Client>>,
    nextGeneration: nat)

  datatype Config = Config(limits: Limits, recoveryLimit: nat)

  const INITIAL: Hub := Hub(map[], map[], {}, map[], 0)

  const NO_BUFFER: DraftBuffer := DraftBuffer(EMPTY, 0, map[], {})

  /** `overflowed` are the streams whose channel was full when the event came. */
  datatype Action =
    | Record(draft: Draft, event: Event, overflowed: set<StreamId>)
    | Subscribe(draft: Draft, stream: StreamId, subscriber: Subscriber)
    | Unsubscribe(draft: Draft, stream: StreamId)
    | AckSnapshot(draft: Draft, client: Client, generation: nat)
    | AckEvent(draft: Draft, stream: StreamId, generation: nat)

  function BufferOf(h: Hub, d: Draft): DraftBuffer { if d in h.buffers then h.buffers[d] else NO_BUFFER }

  function SubsOf(h: Hub, d: Draft): map<StreamId, Subscriber> { if d in h.subs then h.subs[d] else map[] }

  function FailedOf(h: Hub, d: Draft): set<Client> { if d in h.failed then h.failed[d] else {} }

  function WithFailed(h: Hub, d: Draft, clients: set<Client>): Hub {
    h.(failed := if clients == {} then h.failed - {d} else h.failed[d := clients])
  }

  function WithSubs(h: Hub, d: Draft, subs: map<StreamId, Subscriber>): Hub {
    h.(subs := if subs == map[] then h.subs - {d} else h.subs[d := subs])
  }

  // ---------------------------------------------------------------- recording

  /** newRecoveryBuffer: the terminal frame is kept whatever the limits are. */
  function RecoveryEvents(l: Limits, terminal: Event): seq<Event> {
    var gap := Event(Gap, 0, l.gapSize, 0);
    var compact := Event(terminal.kind, 0, l.terminalSize, 0);
    if !Over(l, [gap, terminal]) then [gap, terminal]
    else if !Over(l, [Marker(l), compact]) then [Marker(l), compact]
    else [compact]
  }

  function RecoveryBuffer(l: Limits, terminal: Event, pending: map<StreamId, Client>, failed: set<Client>): DraftBuffer {
    var events := RecoveryEvents(l, terminal);
    DraftBuffer(Buffer(events, Size(events), true), terminal.generation, pending, failed)
  }

  function Started(h: Hub, d: Draft, e: Event): Hub {
    if e.kind.TurnStarted?
    then h.(buffers := h.buffers - {d}, failed := h.failed - {d}, active := h.active + {d}) else h
  }

  /** The recoverable subscribers that a terminal event leaves pending. */
  function PendingAt(h: Hub, d: Draft, e: Event): map<StreamId, Client> {
    if !IsTerminal(e) then map[]
    else map s | s in SubsOf(h, d) && SubsOf(h, d)[s].recoverable :: SubsOf(h, d)[s].client
  }

  function Stamp(h: Hub, d: Draft, e: Event): nat {
    if IsTerminal(e) && (FailedOf(h, d) != {} || PendingAt(h, d, e) != map[]) then h.nextGeneration + 1 else 0
  }

  /** The clients that lose their connection to an overflow. */
  function LostClients(h: Hub, d: Draft, overflowed: set<StreamId>): set<Client> {
    set s | s in overflowed && s in SubsOf(h, d) && SubsOf(h, d)[s].recoverable :: SubsOf(h, d)[s].client
  }

  function Stamped(h: Hub, frozen: Event): Hub {
    h.(nextGeneration := if frozen.generation != 0 then frozen.generation else h.nextGeneration)
  }

  function Buffered(l: Limits, h: Hub, d: Draft, frozen: Event): Hub {
    var current := BufferOf(h, d);
    h.(buffers := h.buffers[d := current.(buffer := Append(l, current.buffer, frozen))])
  }

  /** An overflow ends the stream; a recoverable client has failed by it. */
  function Dropped(h: Hub, d: Draft, overflowed: set<StreamId>): Hub {
    WithSubs(WithFailed(h, d, FailedOf(h, d) + LostClients(h, d, overflowed)), d, SubsOf(h, d) - overflowed)
  }

  /** A terminal event leaves a recovery buffer, or nothing. */
  function Finished(l: Limits, h: Hub, d: Draft, frozen: Event, pending: map<StreamId, Client>): Hub {
    if !IsTerminal(frozen) then h
    else if frozen.generation == 0 then h.(active := h.active - {d}, buffers := h.buffers - {d})
    else h.(active := h.active - {d}, buffers := h.buffers[d := RecoveryBuffer(l, frozen, pending, FailedOf(h, d))])
  }

  /** Record, up to the eviction at its end. */
  function Recorded(l: Limits, before: Hub, d: Draft, event: Event, overflowed: set<StreamId>): Hub {
    var h := Started(before, d, event);
    var frozen := event.(generation := Stamp(h, d, event));
    Finished(l, Dropped(Buffered(l, Stamped(h, frozen), d, frozen), d, overflowed),
             d, frozen, PendingAt(h, d, event) - overflowed)
  }

  // ---------------------------------------------------------------- leaving and acknowledging

  /** A recoverable client that leaves during a turn has failed. */
  function LostBy(h: Hub, d: Draft, s: StreamId): set<Client> {
    if s in SubsOf(h, d) && d in h.active && SubsOf(h, d)[s].recoverable then {SubsOf(h, d)[s].client} else {}
  }

  /** So has one that leaves before acknowledging the terminal event. */
  function MovedBy(h: Hub, d: Draft, s: StreamId): set<Client> {
    if s in BufferOf(h, d).pending then {BufferOf(h, d).pending[s]} else {}
  }

  /** unsubscribe, up to its eviction; a draft without subscribers is left alone. */
  function Left(h: Hub, d: Draft, s: StreamId): Hub {
    if d !in h.subs then h
    else
      var b := BufferOf(h, d);
      var h1 := WithSubs(WithFailed(h, d, FailedOf(h, d) + LostBy(h, d, s) + MovedBy(h, d, s)), d, h.subs[d] - {s});
      if s in b.pending then
        h1.(buffers := h.buffers[d := b.(pending := b.pending - {s}, failed := b.failed + MovedBy(h, d, s))])
      else h1
  }

  /** The common end of both acknowledgements. */
  function Settle(h: Hub, d: Draft, pending: map<StreamId, Client>, client: Client): Hub {
    var b := BufferOf(h, d).(pending := pending, failed := BufferOf(h, d).failed - {client});
    if pending == map[] && b.failed == {} then h.(buffers := h.buffers - {d}, failed := h.failed - {d})
    else WithFailed(h, d, FailedOf(h, d) - {client}).(buffers := h.buffers[d := b])
  }

  predicate Accepts(h: Hub, d: Draft, generation: nat) {
    generation != 0 && BufferOf(h, d).generation == generation
  }

  /** The hub after an action, before any eviction. */
  function Middle(c: Config, h: Hub, a: Action): Hub {
    match a
    case Record(d, e, overflowed) => Recorded(c.limits, h, d, e, overflowed)
    case Subscribe(d, s, sub) => h.(subs := h.subs[d := SubsOf(h, d)[s := sub]])
    case Unsubscribe(d, s) => Left(h, d, s)
    case AckSnapshot(d, client, g) =>
      if Accepts(h, d, g) then Settle(h, d, BufferOf(h, d).pending, client) else h
    case AckEvent(d, s, g) =>
      var b := BufferOf(h, d);
      if Accepts(h, d, g) && s in b.pending then Settle(h, d, b.pending - {s}, b.pending[s]) else h
  }

  /** Whether the action ends with enforceRecoveryLimit. */
  predicate Enforces(h: Hub, a: Action, middle: Hub) {
    match a
    case Record(d, e, _) => Stamp(Started(h, d, e), d, e) != 0
    case Subscribe(_, _, _) => false
    case Unsubscribe(d, s) => d in h.subs && s in BufferOf(h, d).pending && BufferOf(middle, d).pending == map[]
    case AckSnapshot(d, _, g) => Accepts(h, d, g) && d in middle.buffers && middle.buffers[d].pending == map[]
    case AckEvent(d, s, g) =>
      Accepts(h, d, g) && s in BufferOf(h, d).pending && d in middle.buffers && middle.buffers[d].pending == map[]
  }

  /** The recovery buffers nobody is connected to. */
  function IdleIn(buffers: map<Draft, DraftBuffer>): set<Draft> {
    set d | d in buffers && IsIdle(buffers[d])
  }

  predicate IsIdle(b: DraftBuffer) { b.generation != 0 && b.pending == map[] }

  function Idle(h: Hub): set<Draft> { IdleIn(h.buffers) }

  function Without(h: Hub, evicted: set<Draft>): Hub {
    h.(buffers := h.buffers - evicted, failed := h.failed - evicted)
  }

  /** enforceRecoveryLimit removes idle buffers, lowest generations first, and no more than
      it takes to get down to the limit. */
  ghost predicate Evicts(limit: nat, h: Hub, evicted: set<Draft>) {
    && evicted <= Idle(h)
    && |Idle(h) - evicted| <= limit
    && (evicted != {} ==> |Idle(h) - evicted| == limit)
    && forall r, k :: r in evicted && k in Idle(h) - evicted ==> h.buffers[r].generation < h.buffers[k].generation
  }

  ghost predicate Step(c: Config, h: Hub, a: Action, h': Hub, evicted: set<Draft>) {
    var middle := Middle(c, h, a);
    && (if Enforces(h, a, middle) then Evicts(c.recoveryLimit, middle, evicted) else evicted == {})
    && h' == Without(middle, evicted)
  }

  /** What the callers keep to: a new stream is new, recoverable clients have a name, and only
      turn_started and terminal events come outside a turn. */
  predicate Allowed(h: Hub, a: Action) {
    match a
    case Record(d, e, overflowed) =>
      && overflowed <= SubsOf(h, d).Keys && e.generation == 0
      && (e.kind.TurnStarted? || IsTerminal(e) || d in h.active)
    case Subscribe(d, s, sub) =>
      (sub.recoverable ==> sub.client != "") && s !in SubsOf(h, d) && s !in BufferOf(h, d).pending
    case _ => true
  }

  // ---------------------------------------------------------------- invariants

  ghost predicate Generations(h: Hub) {
    && (forall d :: d in h.buffers ==> h.buffers[d].generation <= h.nextGeneration)
    && (forall d, e :: d in h.buffers && e in h.buffers && d != e && h.buffers[d].generation != 0 ==>
          h.buffers[d].generation != h.buffers[e].generation)
    && (forall d :: d in h.active && d in h.buffers ==> h.buffers[d].generation == 0)
  }

  ghost predicate Inv(c: Config, h: Hub) {
    Generations(h) && |Idle(h)| <= c.recoveryLimit
  }

  /** What an action on one draft does to the buffers: only that draft's can change, and its
      generation stays or is the next fresh one. */
  ghost predicate OnlyDraft(h: Hub, m: Hub, d: Draft) {
    && m.buffers - {d} == h.buffers - {d} && m.active - {d} == h.active - {d}
    && h.nextGeneration <= m.nextGeneration
    && (d in m.buffers ==>
          || (m.buffers[d].generation == BufferOf(h, d).generation)
          || (m.buffers[d].generation == m.nextGeneration == h.nextGeneration + 1)
          || m.buffers[d].generation == 0)
    && (d in m.buffers && d in m.active ==> m.buffers[d].generation == 0)
  }

  function DraftOf(a: Action): Draft { a.draft }

  lemma FinishedOnlyDraft(l: Limits, h: Hub, x: Hub, d: Draft, frozen: Event, pending: map<StreamId, Client>)
    requires x.buffers - {d} == h.buffers - {d} && x.active - {d} == h.active - {d}
    requires x.nextGeneration == if frozen.generation != 0 then frozen.generation else h.nextGeneration
    requires frozen.generation == 0 || frozen.generation == h.nextGeneration + 1
    requires IsTerminal(frozen) || (d in x.buffers && d in x.active && x.buffers[d].generation == 0)
    ensures OnlyDraft(h, Finished(l, x, d, frozen, pending), d)
  {
  }

  lemma RecordedOnlyDraft(l: Limits, h: Hub, d: Draft, e: Event, overflowed: set<StreamId>)
    requires Generations(h) && (e.kind.TurnStarted? || IsTerminal(e) || d in h.active)
    ensures OnlyDraft(h, Recorded(l, h, d, e, overflowed), d)
  {
    var h1 := Started(h, d, e);
    var frozen := e.(generation := Stamp(h1, d, e));
    var x := Dropped(Buffered(l, Stamped(h1, frozen), d, frozen), d, overflowed);
    assert h1.buffers - {d} == h.buffers - {d} && h1.active - {d} == h.active - {d};
    NotedOnlyDraft(l, h1, d, frozen, overflowed, x);
    FinishedOnlyDraft(l, h, x, d, frozen, PendingAt(h1, d, e) - overflowed);
  }

  lemma NotedOnlyDraft(l: Limits, h: Hub, d: Draft, frozen: Event, overflowed: set<StreamId>, x: Hub)
    requires x == Dropped(Buffered(l, Stamped(h, frozen), d, frozen), d, overflowed)
    ensures x.buffers - {d} == h.buffers - {d} && x.active == h.active && d in x.buffers
    ensures x.buffers[d].generation == BufferOf(h, d).generation
    ensures x.nextGeneration == if frozen.generation != 0 then frozen.generation else h.nextGeneration
  {
  }

  lemma OthersOnlyDraft(c: Config, h: Hub, a: Action)
    requires Generations(h) && !a.Record?
    ensures OnlyDraft(h, Middle(c, h, a), DraftOf(a))
  {
  }

  lemma OnlyDraftGenerations(h: Hub, m: Hub, d: Draft)
    requires Generations(h) && OnlyDraft(h, m, d)
    ensures Generations(m)
  {
    forall e | e in m.buffers && e != d ensures e in h.buffers && m.buffers[e] == h.buffers[e] {
      assert e in m.buffers - {d};
      assert (m.buffers - {d})[e] == (h.buffers - {d})[e];
    }
    forall e | e in m.active && e != d ensures e in h.active {
      assert e in m.active - {d};
    }
  }

  lemma MiddleGenerations(c: Config, h: Hub, a: Action)
    requires Generations(h) && Allowed(h, a)
    ensures Generations(Middle(c, h, a))
  {
    if a.Record? {
      RecordedOnlyDraft(c.limits, h, a.draft, a.event, a.overflowed);
    } else {
      OthersOnlyDraft(c, h, a);
    }
    OnlyDraftGenerations(h, Middle(c, h, a), DraftOf(a));
  }

  /** Without an eviction the number of idle buffers does not grow. */
  lemma QuietKeepsIdle(c: Config, h: Hub, a: Action)
    requires Generations(h) && Allowed(h, a) && !Enforces(h, a, Middle(c, h, a))
    ensures Idle(Middle(c, h, a)) <= Idle(h)
  {
  }

  lemma SubsetSize(a: set<Draft>, b: set<Draft>)
    requires a <= b
    ensures |a| <= |b|
  {
    assert b == a + (b - a);
  }

  lemma EvictionKeeps(c: Config, middle: Hub, evicted: set<Draft>)
    requires Generations(middle)
    ensures Generations(Without(middle, evicted))
    ensures Idle(Without(middle, evicted)) == Idle(middle) - evicted
  {
  }

  /** Buffers without a connected client never exceed the limit. */
  lemma StepKeeps(c: Config, h: Hub, a: Action, h': Hub, evicted: set<Draft>)
    requires Inv(c, h) && Allowed(h, a) && Step(c, h, a, h', evicted)
    ensures Inv(c, h')
  {
    var middle := Middle(c, h, a);
    MiddleGenerations(c, h, a);
    EvictionKeeps(c, middle, evicted);
    if !Enforces(h, a, middle) {
      QuietKeepsIdle(c, h, a);
      SubsetSize(Idle(h'), Idle(h));
    }
  }

  // ---------------------------------------------------------------- recovery debt

  ghost predicate ShowsTerminal(events: seq<Event>) { exists i :: 0 <= i < |events| && IsTerminal(events[i]) }

  /** Client `x` has still to learn of the end of the turn with generation `g`: it is pending or
      failed, and the draft's snapshot shows the terminal event. */
  ghost predicate Owes(h: Hub, d: Draft, x: Client, g: nat) {
    && g != 0 && d in h.buffers && h.buffers[d].generation == g
    && (x in h.buffers[d].failed || x in h.buffers[d].pending.Values)
    && ShowsTerminal(h.buffers[d].buffer.events)
  }

  /** The recoverable clients that were connected, or had lost their connection in the turn. */
  ghost predicate Concerned(h: Hub, d: Draft, x: Client) {
    x in FailedOf(h, d) || exists s :: s in SubsOf(h, d) && SubsOf(h, d)[s] == Subscriber(true, x)
  }

  /** What ends the debt: the next turn, another terminal event, or this client's own
      acknowledgement of that generation. */
  predicate Settles(h: Hub, a: Action, d: Draft, x: Client, g: nat) {
    match a
    case Record(e, event, _) => e == d && (event.kind.TurnStarted? || IsTerminal(event))
    case AckSnapshot(e, y, k) => e == d && y == x && k == g
    case AckEvent(e, s, k) => e == d && k == g && s in BufferOf(h, d).pending && BufferOf(h, d).pending[s] == x
    case _ => false
  }

  lemma RecoveryShowsTerminal(l: Limits, terminal: Event)
    requires IsTerminal(terminal)
    ensures ShowsTerminal(RecoveryEvents(l, terminal))
  {
    var events := RecoveryEvents(l, terminal);
    assert IsTerminal(events[|events| - 1]);
  }

  lemma PendingOrLost(h: Hub, d: Draft, e: Event, overflowed: set<StreamId>, x: Client)
    requires IsTerminal(e) && Concerned(h, d, x)
    ensures x in FailedOf(h, d) + LostClients(h, d, overflowed)
      || x in (PendingAt(h, d, e) - overflowed).Values
    ensures Stamp(h, d, e) == h.nextGeneration + 1
  {
    var pending := PendingAt(h, d, e);
    if x !in FailedOf(h, d) {
      var s :| s in SubsOf(h, d) && SubsOf(h, d)[s] == Subscriber(true, x);
      assert s in pending && pending[s] == x;
      if s !in overflowed {
        assert s in pending - overflowed && (pending - overflowed)[s] == x;
      }
    }
  }

  lemma TerminalBuffer(l: Limits, h: Hub, d: Draft, e: Event, overflowed: set<StreamId>)
    requires IsTerminal(e) && Stamp(h, d, e) == h.nextGeneration + 1
    ensures d in Recorded(l, h, d, e, overflowed).buffers
    ensures Recorded(l, h, d, e, overflowed).buffers[d] ==
      RecoveryBuffer(l, e.(generation := h.nextGeneration + 1), PendingAt(h, d, e) - overflowed,
                     FailedOf(h, d) + LostClients(h, d, overflowed))
  {
  }

  /** A terminal event owes its end to every concerned client, whether the live frame reached
      its channel or the channel overflowed. */
  lemma TerminalIncursDebt(c: Config, h: Hub, d: Draft, e: Event, overflowed: set<StreamId>, x: Client,
                           h': Hub, evicted: set<Draft>)
    requires IsTerminal(e) && Concerned(h, d, x)
    requires Step(c, h, Record(d, e, overflowed), h', evicted)
    ensures Owes(h', d, x, h.nextGeneration + 1) || d in evicted
  {
    PendingOrLost(h, d, e, overflowed, x);
    TerminalBuffer(c.limits, h, d, e, overflowed);
    RecoveryShowsTerminal(c.limits, e.(generation := h.nextGeneration + 1));
    if d !in evicted {
      var middle := Recorded(c.limits, h, d, e, overflowed);
      assert d in h'.buffers && h'.buffers[d] == middle.buffers[d];
    }
  }

  /** Settling one client's debt keeps every other client's, and the buffer with it. */
  lemma SettleKeepsDebt(h: Hub, d: Draft, pending: map<StreamId, Client>, y: Client, x: Client, g: nat)
    requires Owes(h, d, x, g) && x != y
    requires x in h.buffers[d].pending.Values ==> x in pending.Values
    ensures Owes(Settle(h, d, pending, y), d, x, g)
  {
    if x in h.buffers[d].failed {
      assert x in h.buffers[d].failed - {y};
    } else {
      assert pending != map[];
    }
  }

  lemma LeftKeepsDebt(h: Hub, e: Draft, s: StreamId, d: Draft, x: Client, g: nat)
    requires Owes(h, d, x, g)
    ensures Owes(Left(h, e, s), d, x, g)
  {
    var b := BufferOf(h, e);
    if e == d && e in h.subs && s in b.pending && x in b.pending.Values && x != b.pending[s] {
      var t :| t in b.pending && b.pending[t] == x;
      assert t in b.pending - {s} && (b.pending - {s})[t] == x;
    }
  }

  lemma AckKeepsDebt(c: Config, h: Hub, a: Action, d: Draft, x: Client, g: nat)
    requires Owes(h, d, x, g) && !Settles(h, a, d, x, g) && (a.AckSnapshot? || a.AckEvent?)
    ensures Owes(Middle(c, h, a), d, x, g)
  {
    if DraftOf(a) == d && Accepts(h, d, a.generation) {
      var b := BufferOf(h, d);
      if a.AckSnapshot? {
        SettleKeepsDebt(h, d, b.pending, a.client, x, g);
      } else if a.stream in b.pending {
        if x in b.pending.Values {
          var t :| t in b.pending && b.pending[t] == x;
          assert t in b.pending - {a.stream} && (b.pending - {a.stream})[t] == x;
        }
        SettleKeepsDebt(h, d, b.pending - {a.stream}, b.pending[a.stream], x, g);
      }
    }
  }

  /** Nothing but a settlement or an eviction ends a debt. */
  lemma StepKeepsDebt(c: Config, h: Hub, a: Action, h': Hub, evicted: set<Draft>, d: Draft, x: Client, g: nat)
    requires Inv(c, h) && Allowed(h, a) && Step(c, h, a, h', evicted)
    requires Owes(h, d, x, g) && !Settles(h, a, d, x, g) && d !in evicted
    ensures Owes(h', d, x, g)
  {
    match a
    case Record(e, event, overflowed) =>
      assert e != d;
      RecordedOnlyDraft(c.limits, h, e, event, overflowed);
      var middle := Middle(c, h, a);
      assert d in h.buffers - {e} && (h.buffers - {e})[d] == h.buffers[d];
      assert d in middle.buffers - {e} && (middle.buffers - {e})[d] == middle.buffers[d];
    case Subscribe(_, _, _) =>
    case Unsubscribe(e, s) => LeftKeepsDebt(h, e, s, d, x, g);
    case AckSnapshot(_, _, _) => AckKeepsDebt(c, h, a, d, x, g);
    case AckEvent(_, _, _) => AckKeepsDebt(c, h, a, d, x, g);
  }

  /** An acknowledgement of another generation changes nothing. */
  lemma StaleAckIsIgnored(c: Config, h: Hub, a: Action, h': Hub, evicted: set<Draft>)
    requires (a.AckSnapshot? || a.AckEvent?) && BufferOf(h, DraftOf(a)).generation != a.generation
    requires Step(c, h, a, h', evicted)
    ensures h' == h
  {
    assert h.buffers - {} == h.buffers && h.failed - {} == h.failed;
  }

  // ---------------------------------------------------------------- runs

  ghost predicate Run(c: Config, hubs: seq<Hub>, actions: seq<Action>, evictions: seq<set<Draft>>) {
    && |hubs| == |actions| + 1 && |evictions| == |actions| && hubs[0] == INITIAL
    && forall i :: 0 <= i < |actions| ==>
         Allowed(hubs[i], actions[i]) && Step(c, hubs[i], actions[i], hubs[i + 1], evictions[i])
  }

  lemma {:induction false} RunInv(c: Config, hubs: seq<Hub>, actions: seq<Action>, evictions: seq<set<Draft>>, i: nat)
    requires Run(c, hubs, actions, evictions) && i < |hubs|
    ensures Inv(c, hubs[i])
  {
    if i == 0 {
      assert Idle(INITIAL) == {};
    } else {
      RunInv(c, hubs, actions, evictions, i - 1);
      StepKeeps(c, hubs[i - 1], actions[i - 1], hubs[i], evictions[i - 1]);
    }
  }

  lemma DebtStarts(c: Config, hubs: seq<Hub>, actions: seq<Action>, evictions: seq<set<Draft>>, i: nat, x: Client)
    requires Run(c, hubs, actions, evictions) && i < |actions| && actions[i].Record?
    requires IsTerminal(actions[i].event) && Concerned(hubs[i], actions[i].draft, x)
    requires actions[i].draft !in evictions[i]
    ensures Owes(hubs[i + 1], actions[i].draft, x, hubs[i].nextGeneration + 1)
  {
    TerminalIncursDebt(c, hubs[i], actions[i].draft, actions[i].event, actions[i].overflowed, x, hubs[i + 1], evictions[i]);
  }

  lemma DebtGoesOn(c: Config, hubs: seq<Hub>, actions: seq<Action>, evictions: seq<set<Draft>>, k: nat,
                   d: Draft, x: Client, g: nat)
    requires Run(c, hubs, actions, evictions) && k < |actions|
    requires Owes(hubs[k], d, x, g) && !Settles(hubs[k], actions[k], d, x, g) && d !in evictions[k]
    ensures Owes(hubs[k + 1], d, x, g)
  {
    RunInv(c, hubs, actions, evictions, k);
    StepKeepsDebt(c, hubs[k], actions[k], hubs[k + 1], evictions[k], d, x, g);
  }

  /** In every run: a client concerned by a terminal event at step `i` still finds a terminal
      event in the draft's snapshot at step `j`, as long as the debt was not settled and the
      buffer not evicted in between. */
  lemma {:induction false} RecoveryDebt(c: Config, hubs: seq<Hub>, actions: seq<Action>, evictions: seq<set<Draft>>,
                                        i: nat, j: nat, d: Draft, x: Client, g: nat)
    requires Run(c, hubs, actions, evictions) && i < j < |hubs|
    requires actions[i].Record? && actions[i].draft == d && g == hubs[i].nextGeneration + 1
    requires IsTerminal(actions[i].event) && Concerned(hubs[i], d, x)
    requires forall k :: i <= k < j ==> d !in evictions[k]
    requires forall k :: i < k < j ==> !Settles(hubs[k], actions[k], d, x, g)
    ensures Owes(hubs[j], d, x, g) && ShowsTerminal(BufferOf(hubs[j], d).buffer.events)
    decreases j
  {
    if j == i + 1 {
      DebtStarts(c, hubs, actions, evictions, i, x);
    } else {
      RecoveryDebt(c, hubs, actions, evictions, i, j - 1, d, x, g);
      DebtGoesOn(c, hubs, actions, evictions, j - 1, d, x, g);
    }
  }

  /** In every run the recovery buffers without a connected client stay within the limit. */
  lemma IdleBuffersBounded(c: Config, hubs: seq<Hub>, actions: seq<Action>, evictions: seq<set<Draft>>, i: nat)
    requires Run(c, hubs, actions, evictions) && i < |hubs|
    ensures |Idle(hubs[i])| <= c.recoveryLimit
  {
    RunInv(c, hubs, actions, evictions, i);
  }
}
