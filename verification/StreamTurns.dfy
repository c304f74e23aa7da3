/**
 * What a turn's subscribers find in the snapshot, and who is owed its end: both follow from
 * what has been recorded and who was connected, computed here from the actions of a run alone.
 */
module StreamTurns {
  import opened ReplayBuffer
  import opened StreamDelivery
  import opened StreamRecovery

  /** The events of every running turn, from its turn_started on. */
  type Turns = map<Draft, seq<Event>>

  function TurnsAfter(turns: Turns, a: Action): Turns {
    match a
    case Record(d, e, _) =>
      if e.kind.TurnStarted? then turns[d := [e]]
      else if e.kind.TurnEnded? || e.kind.TurnError? then turns - {d}
      else if d in turns then turns[d := turns[d] + [e]]
      else turns
    case _ => turns
  }

  function TurnsOf(actions: seq<Action>): Turns {
    if actions == [] then map[] else TurnsAfter(TurnsOf(actions[..|actions| - 1]), actions[|actions| - 1])
  }

  /** The end of a draft's log, from its last turn_started on. */
  function LastTurn(log: seq<Event>): seq<Event> {
    if log == [] then []
    else if log[|log| - 1].kind.TurnStarted? then [log[|log| - 1]]
    else LastTurn(log[..|log| - 1]) + [log[|log| - 1]]
  }

  lemma LastTurnGrows(log: seq<Event>, e: Event)
    ensures LastTurn(log + [e]) == if e.kind.TurnStarted? then [e] else LastTurn(log) + [e]
  {
    assert (log + [e])[..|log|] == log;
  }

  // ---------------------------------------------------------------- the snapshot

  /** Somebody has still to learn of the end of the draft's last turn. */
  predicate IsOwed(b: DraftBuffer) { b.failed != {} || b.pending != map[] }

  predicate Unowed(b: DraftBuffer) { b.generation == 0 && !IsOwed(b) }

  predicate Recovers(b: DraftBuffer) { b.generation != 0 && IsOwed(b) && b.buffer.events != [] }

  /** A running turn is active, and its buffer accounts for its whole log; any other draft has a
      buffer exactly as long as somebody is owed the end of a turn. */
  ghost predicate Shows(l: Limits, h: Hub, d: Draft, turns: Turns) {
    && (d in turns <==> d in h.active)
    && (d in turns ==> BufferOf(h, d).buffer == AppendAll(l, EMPTY, turns[d]))
    && (d in h.buffers ==> if d in h.active then Unowed(h.buffers[d]) else Recovers(h.buffers[d]))
  }

  ghost predicate Showing(l: Limits, h: Hub, turns: Turns) { forall d :: Shows(l, h, d, turns) }

  lemma AppendToLog(l: Limits, log: seq<Event>, e: Event)
    ensures AppendAll(l, EMPTY, log + [e]) == Append(l, AppendAll(l, EMPTY, log), e)
    ensures AppendAll(l, EMPTY, [e]) == Append(l, EMPTY, e)
  {
    assert (log + [e])[..|log|] == log && [e][..0] == [];
  }

  lemma RecordShows(l: Limits, h: Hub, d: Draft, e: Event, overflowed: set<StreamId>, turns: Turns, h': Hub)
    requires Shows(l, h, d, turns) && Allowed(h, Record(d, e, overflowed)) && h' == Recorded(l, h, d, e, overflowed)
    ensures Shows(l, h', d, TurnsAfter(turns, Record(d, e, overflowed)))
  {
    if IsTerminal(e) {
      TerminalShows(l, h, d, e, overflowed, h');
    } else {
      AppendToLog(l, if d in turns then turns[d] else [], e);
      LiveShows(l, h, d, e, overflowed, h');
    }
  }

  /** An event inside a turn goes behind what is buffered, the first into an empty buffer. */
  lemma LiveShows(l: Limits, h: Hub, d: Draft, e: Event, overflowed: set<StreamId>, h': Hub)
    requires Allowed(h, Record(d, e, overflowed)) && h' == Recorded(l, h, d, e, overflowed) && !IsTerminal(e)
    ensures h'.active == h.active + {d} && d in h'.buffers
    ensures var b := if e.kind.TurnStarted? then NO_BUFFER else BufferOf(h, d);
      h'.buffers[d] == b.(buffer := Append(l, b.buffer, e))
  {
    assert e.(generation := 0) == e;
  }

  lemma TerminalShows(l: Limits, h: Hub, d: Draft, e: Event, overflowed: set<StreamId>, h': Hub)
    requires Allowed(h, Record(d, e, overflowed)) && h' == Recorded(l, h, d, e, overflowed) && IsTerminal(e)
    ensures h'.active == h.active - {d}
    ensures d in h'.buffers ==> Recovers(h'.buffers[d])
    ensures d in h'.buffers <==> FailedOf(h, d) != {} || PendingAt(h, d, e) != map[]
  {
    var pending := PendingAt(h, d, e);
    if FailedOf(h, d) == {} && pending != map[] && LostClients(h, d, overflowed) == {} {
      var s :| s in pending;
      assert SubsOf(h, d)[s].client !in LostClients(h, d, overflowed);
      assert s in pending - overflowed;
    }
  }

  lemma AckShows(c: Config, h: Hub, a: Action, turns: Turns)
    requires (a.AckSnapshot? || a.AckEvent?) && Shows(c.limits, h, a.draft, turns)
    ensures Shows(c.limits, Middle(c, h, a), a.draft, turns)
  {
  }

  lemma LeaveShows(l: Limits, h: Hub, d: Draft, s: StreamId, turns: Turns)
    requires Shows(l, h, d, turns)
    ensures Shows(l, Left(h, d, s), d, turns)
  {
  }

  lemma MiddleShows(c: Config, h: Hub, a: Action, turns: Turns)
    requires Shows(c.limits, h, a.draft, turns) && Allowed(h, a)
    ensures Shows(c.limits, Middle(c, h, a), a.draft, TurnsAfter(turns, a))
  {
    match a
    case Record(d, e, overflowed) => RecordShows(c.limits, h, d, e, overflowed, turns, Middle(c, h, a));
    case Unsubscribe(d, s) => LeaveShows(c.limits, h, d, s, turns);
    case Subscribe(_, _, _) =>
    case _ => AckShows(c, h, a, turns);
  }

  /** What an action on one draft leaves of another. */
  lemma OthersShow(l: Limits, h: Hub, m: Hub, d: Draft, e: Draft, turns: Turns, turns': Turns)
    requires Shows(l, h, e, turns) && OnlyDraft(h, m, d) && e != d && turns' - {d} == turns - {d}
    ensures Shows(l, m, e, turns')
  {
    assert e in m.buffers <==> e in m.buffers - {d};
    assert e in h.buffers <==> e in h.buffers - {d};
    assert e in h.buffers ==> (m.buffers - {d})[e] == (h.buffers - {d})[e];
    assert e in m.active <==> e in m.active - {d};
    assert e in h.active <==> e in h.active - {d};
    assert e in turns <==> e in turns - {d};
    assert e in turns' <==> e in turns' - {d};
    assert e in turns ==> (turns - {d})[e] == (turns' - {d})[e];
  }

  lemma EvictionShows(l: Limits, m: Hub, evicted: set<Draft>, d: Draft, turns: Turns)
    requires Shows(l, m, d, turns) && evicted <= Idle(m)
    ensures Shows(l, Without(m, evicted), d, turns)
  {
  }

  lemma OnlyThatDraft(c: Config, h: Hub, a: Action)
    requires Generations(h) && Allowed(h, a)
    ensures OnlyDraft(h, Middle(c, h, a), a.draft)
  {
    if a.Record? {
      RecordedOnlyDraft(c.limits, h, a.draft, a.event, a.overflowed);
    } else {
      OthersOnlyDraft(c, h, a);
    }
  }

  lemma TurnsElsewhere(turns: Turns, a: Action)
    ensures TurnsAfter(turns, a) - {a.draft} == turns - {a.draft}
  {
  }

  lemma DraftShows(c: Config, h: Hub, a: Action, m: Hub, d: Draft, turns: Turns)
    requires Generations(h) && Allowed(h, a) && m == Middle(c, h, a)
    requires Shows(c.limits, h, a.draft, turns) && Shows(c.limits, h, d, turns)
    ensures Shows(c.limits, m, d, TurnsAfter(turns, a))
  {
    if d == a.draft {
      MiddleShows(c, h, a, turns);
    } else {
      OnlyThatDraft(c, h, a);
      TurnsElsewhere(turns, a);
      OthersShow(c.limits, h, m, a.draft, d, turns, TurnsAfter(turns, a));
    }
  }

  lemma StepEvicts(c: Config, h: Hub, a: Action, h': Hub, evicted: set<Draft>, m: Hub)
    requires Step(c, h, a, h', evicted) && m == Middle(c, h, a)
    ensures h' == Without(m, evicted) && evicted <= Idle(m)
  {
  }

  /** Every action keeps the snapshots of all drafts right. */
  lemma StepShows(c: Config, h: Hub, a: Action, h': Hub, evicted: set<Draft>, turns: Turns)
    requires Generations(h) && Allowed(h, a) && Step(c, h, a, h', evicted) && Showing(c.limits, h, turns)
    ensures Showing(c.limits, h', TurnsAfter(turns, a))
  {
    var m := Middle(c, h, a);
    StepEvicts(c, h, a, h', evicted, m);
    forall d ensures Shows(c.limits, h', d, TurnsAfter(turns, a)) {
      DraftShows(c, h, a, m, d, turns);
      EvictionShows(c.limits, m, evicted, d, TurnsAfter(turns, a));
    }
  }

  /** What the buffer contains of a log, as BufferAccounting proves it. */
  ghost predicate Accounts(l: Limits, b: Buffer, log: seq<Event>) {
    && (!b.truncated ==> b.events == log)
    && exists from: nat, k: nat :: from <= |log| && Holds(l, b, log, from, k) && LastCollapse(l, log, from)
  }

  lemma LogIsAccounted(l: Limits, log: seq<Event>)
    ensures Accounts(l, AppendAll(l, EMPTY, log), log)
  {
    var from, k := BufferAccounting(l, log);
  }

  lemma {:induction false} RunShows(c: Config, hubs: seq<Hub>, actions: seq<Action>, evictions: seq<set<Draft>>, i: nat)
    requires Run(c, hubs, actions, evictions) && i < |hubs|
    ensures Showing(c.limits, hubs[i], TurnsOf(actions[..i]))
  {
    if i > 0 {
      RunShows(c, hubs, actions, evictions, i - 1);
      RunInv(c, hubs, actions, evictions, i - 1);
      assert actions[..i][..i - 1] == actions[..i - 1];
      StepShows(c, hubs[i - 1], actions[i - 1], hubs[i], evictions[i - 1], TurnsOf(actions[..i - 1]));
    }
  }

  lemma SnapshotShows(l: Limits, h: Hub, d: Draft, turns: Turns)
    requires Showing(l, h, turns)
    ensures d in turns <==> d in h.active
    ensures d in turns ==> Accounts(l, BufferOf(h, d).buffer, turns[d])
    ensures d !in turns ==> (BufferOf(h, d).buffer.events == [] <==> !IsOwed(BufferOf(h, d)))
  {
    assert Shows(l, h, d, turns);
    if d in turns { LogIsAccounted(l, turns[d]); }
  }

  /** In every run the snapshot of a draft accounts for all that was recorded since its turn
      started; outside a turn it is empty exactly if nobody is owed the end of the last one. */
  lemma SnapshotIsTurn(c: Config, hubs: seq<Hub>, actions: seq<Action>, evictions: seq<set<Draft>>, d: Draft)
    requires Run(c, hubs, actions, evictions)
    ensures var h, turns := hubs[|actions|], TurnsOf(actions);
      && (d in turns <==> d in h.active)
      && (d in turns ==> Accounts(c.limits, BufferOf(h, d).buffer, turns[d]))
      && (d !in turns ==> (BufferOf(h, d).buffer.events == [] <==> !IsOwed(BufferOf(h, d))))
  {
    assert actions[..|actions|] == actions;
    RunShows(c, hubs, actions, evictions, |actions|);
    SnapshotShows(c.limits, hubs[|actions|], d, TurnsOf(actions));
  }

  // ---------------------------------------------------------------- the recovery frames

  /** The end of a turn is kept in full behind a gap if both fit; if not, in short behind the
      marker if these fit; and in any case. */
  lemma RecoveryFramesFit(l: Limits, terminal: Event)
    requires IsTerminal(terminal)
    ensures var r := RecoveryEvents(l, terminal);
      && |r| > 0 && r[|r| - 1].kind == terminal.kind && (!Over(l, r) || |r| == 1)
      && (l.events >= 2 && l.gapSize + terminal.size <= l.bytes ==> r == [Event(Gap, 0, l.gapSize, 0), terminal])
      && (l.events >= 2 && l.markerSize + l.terminalSize <= l.bytes ==> |r| == 2)
  {
    assert Size([terminal]) == terminal.size;
    var compact := Event(terminal.kind, 0, l.terminalSize, 0);
    assert Size([compact]) == l.terminalSize;
    assert [Event(Gap, 0, l.gapSize, 0), terminal][1..] == [terminal] && [Marker(l), compact][1..] == [compact];
  }

  // ---------------------------------------------------------------- who is concerned

  /** The clients of the recoverable streams. */
  ghost predicate Connected(h: Hub, d: Draft, x: Client) {
    exists s :: s in SubsOf(h, d) && SubsOf(h, d)[s] == Subscriber(true, x)
  }

  /** The action starts or ends a turn of the draft. */
  predicate Bounds(a: Action, d: Draft) {
    a.Record? && a.draft == d && (a.event.kind.TurnStarted? || IsTerminal(a.event))
  }

  /** Once concerned by a turn, a client stays so until the turn ends, whether its stream is left
      open, closed or overflows; and nobody else becomes so without a recoverable stream. */
  lemma ConcernIsExact(c: Config, h: Hub, a: Action, h': Hub, evicted: set<Draft>, d: Draft, x: Client)
    requires Generations(h) && Allowed(h, a) && Step(c, h, a, h', evicted) && d in h.active
    requires !Bounds(a, d)
    requires d in h.buffers ==> Unowed(h.buffers[d])
    ensures Concerned(h', d, x) <==> Concerned(h, d, x) || (a.Subscribe? && a.draft == d && a.subscriber == Subscriber(true, x))
  {
    var m := Middle(c, h, a);
    StepEvicts(c, h, a, h', evicted, m);
    MiddleActive(c, h, a, d);
    MiddleConcerns(c, h, a, d, x);
    EvictedElsewhere(m, evicted, d, x);
  }

  lemma EvictedElsewhere(m: Hub, evicted: set<Draft>, d: Draft, x: Client)
    requires d !in evicted
    ensures Concerned(Without(m, evicted), d, x) <==> Concerned(m, d, x)
  {
    assert SameClients(m, Without(m, evicted), d);
  }

  lemma MiddleActive(c: Config, h: Hub, a: Action, d: Draft)
    requires Generations(h) && Allowed(h, a) && d in h.active
    requires !Bounds(a, d)
    ensures d in Middle(c, h, a).active && d !in Idle(Middle(c, h, a))
  {
    MiddleGenerations(c, h, a);
    OnlyThatDraft(c, h, a);
    assert d in h.active - {a.draft} <==> d != a.draft;
    assert d in Middle(c, h, a).active - {a.draft} <==> d in Middle(c, h, a).active && d != a.draft;
  }

  lemma MiddleConcerns(c: Config, h: Hub, a: Action, d: Draft, x: Client)
    requires Generations(h) && Allowed(h, a) && d in h.active && (d in h.buffers ==> Unowed(h.buffers[d]))
    requires !Bounds(a, d)
    ensures Concerned(Middle(c, h, a), d, x)
      <==> Concerned(h, d, x) || (a.Subscribe? && a.draft == d && a.subscriber == Subscriber(true, x))
  {
    if a.draft != d {
      if a.Record? { RecordElsewhere(c.limits, h, a.draft, a.event, a.overflowed, d); } else { OthersElsewhere(c, h, a, d); }
    } else {
      match a
      case Record(_, event, overflowed) => OverflowConcerns(c.limits, h, d, event, overflowed, x);
      case Subscribe(_, s, sub) => SubscribeConcerns(h, d, s, sub, Middle(c, h, a), x);
      case Unsubscribe(_, s) => LeaveConcerns(h, d, s, x);
      case _ =>
    }
  }

  /** Nothing about the draft's subscribers differs. */
  predicate SameClients(h: Hub, m: Hub, d: Draft) { SubsOf(m, d) == SubsOf(h, d) && FailedOf(m, d) == FailedOf(h, d) }

  lemma FinishedSame(l: Limits, h: Hub, e: Draft, frozen: Event, pending: map<StreamId, Client>, d: Draft)
    ensures SameClients(h, Finished(l, h, e, frozen, pending), d)
  {
  }

  lemma DroppedElsewhere(h: Hub, e: Draft, overflowed: set<StreamId>, d: Draft)
    requires e != d
    ensures SameClients(h, Dropped(h, e, overflowed), d)
  {
  }

  lemma RecordElsewhere(l: Limits, h: Hub, e: Draft, event: Event, overflowed: set<StreamId>, d: Draft)
    requires e != d
    ensures SameClients(h, Recorded(l, h, e, event, overflowed), d)
  {
    var h1 := Started(h, e, event);
    var frozen := event.(generation := Stamp(h1, e, event));
    var noted := Buffered(l, Stamped(h1, frozen), e, frozen);
    assert SameClients(h, noted, d);
    DroppedElsewhere(noted, e, overflowed, d);
    FinishedSame(l, Dropped(noted, e, overflowed), e, frozen, PendingAt(h1, e, event) - overflowed, d);
  }

  lemma OthersElsewhere(c: Config, h: Hub, a: Action, d: Draft)
    requires a.draft != d && !a.Record?
    ensures SameClients(h, Middle(c, h, a), d)
  {
  }

  lemma SubscribeConcerns(h: Hub, d: Draft, s: StreamId, sub: Subscriber, m: Hub, x: Client)
    requires s !in SubsOf(h, d) && m == h.(subs := h.subs[d := SubsOf(h, d)[s := sub]])
    ensures Concerned(m, d, x) <==> Concerned(h, d, x) || sub == Subscriber(true, x)
  {
    assert SubsOf(m, d) == SubsOf(h, d)[s := sub] && SubsOf(m, d)[s] == sub;
    forall t | t in SubsOf(h, d) ensures t in SubsOf(m, d) && SubsOf(m, d)[t] == SubsOf(h, d)[t] {}
  }

  lemma LeaveConcerns(h: Hub, d: Draft, s: StreamId, x: Client)
    requires d in h.active && (d in h.buffers ==> Unowed(h.buffers[d]))
    ensures Concerned(Left(h, d, s), d, x) <==> Concerned(h, d, x)
  {
    var m := Left(h, d, s);
    if d in h.subs {
      assert SubsOf(m, d) == SubsOf(h, d) - {s};
      assert FailedOf(m, d) == FailedOf(h, d) + LostBy(h, d, s);
      forall t | t in SubsOf(m, d) ensures t in SubsOf(h, d) && SubsOf(m, d)[t] == SubsOf(h, d)[t] {}
      forall t | t in SubsOf(h, d) && t != s ensures t in SubsOf(m, d) && SubsOf(m, d)[t] == SubsOf(h, d)[t] {}
    }
  }

  lemma OverflowConcerns(l: Limits, h: Hub, d: Draft, e: Event, overflowed: set<StreamId>, x: Client)
    requires !e.kind.TurnStarted? && !IsTerminal(e) && overflowed <= SubsOf(h, d).Keys && e.generation == 0
    ensures Concerned(Recorded(l, h, d, e, overflowed), d, x) <==> Concerned(h, d, x)
  {
    var m := Recorded(l, h, d, e, overflowed);
    assert SubsOf(m, d) == SubsOf(h, d) - overflowed;
    assert FailedOf(m, d) == FailedOf(h, d) + LostClients(h, d, overflowed);
    forall t | t in SubsOf(m, d) ensures t in SubsOf(h, d) && SubsOf(m, d)[t] == SubsOf(h, d)[t] {}
    forall t | t in SubsOf(h, d) && t !in overflowed ensures t in SubsOf(m, d) && SubsOf(m, d)[t] == SubsOf(h, d)[t] {}
  }

  /** A new turn concerns exactly the clients connected when it starts, and leaves nobody owed the
      end of the one before. */
  lemma TurnStartsClean(l: Limits, h: Hub, d: Draft, e: Event, overflowed: set<StreamId>, x: Client)
    requires e.kind.TurnStarted? && e.generation == 0 && overflowed <= SubsOf(h, d).Keys
    ensures Concerned(Recorded(l, h, d, e, overflowed), d, x) <==> Connected(h, d, x)
    ensures Debtors(Recorded(l, h, d, e, overflowed), d) == {}
  {
    var m := Recorded(l, h, d, e, overflowed);
    assert SubsOf(m, d) == SubsOf(h, d) - overflowed;
    assert FailedOf(m, d) == LostClients(h, d, overflowed);
    forall t | t in SubsOf(m, d) ensures t in SubsOf(h, d) && SubsOf(m, d)[t] == SubsOf(h, d)[t] {}
    forall t | t in SubsOf(h, d) && t !in overflowed ensures t in SubsOf(m, d) && SubsOf(m, d)[t] == SubsOf(h, d)[t] {}
  }

  ghost predicate InTurn(h: Hub, d: Draft, x: Client) { d in h.active && Concerned(h, d, x) }

  lemma ConcernStays(c: Config, hubs: seq<Hub>, actions: seq<Action>, evictions: seq<set<Draft>>, k: nat, d: Draft, x: Client)
    requires Run(c, hubs, actions, evictions) && k < |actions| && InTurn(hubs[k], d, x) && !Bounds(actions[k], d)
    ensures InTurn(hubs[k + 1], d, x)
  {
    RunInv(c, hubs, actions, evictions, k);
    RunShows(c, hubs, actions, evictions, k);
    assert Shows(c.limits, hubs[k], d, TurnsOf(actions[..k]));
    ConcernIsExact(c, hubs[k], actions[k], hubs[k + 1], evictions[k], d, x);
    MiddleActive(c, hubs[k], actions[k], d);
  }

  lemma {:induction false} InTurnAlong(hubs: seq<Hub>, i: nat, j: nat, d: Draft, x: Client)
    requires i <= j < |hubs| && InTurn(hubs[i], d, x)
    requires forall k :: i <= k < j && InTurn(hubs[k], d, x) ==> InTurn(hubs[k + 1], d, x)
    ensures InTurn(hubs[j], d, x)
  {
    if i < j {
      InTurnAlong(hubs, i, j - 1, d, x);
    }
  }

  /** A turn that has just ended is the last whose buffer is given up: not at its own end, unless
      none is to be kept at all. */
  lemma NewestIsKept(c: Config, h: Hub, d: Draft, e: Event, overflowed: set<StreamId>, h': Hub, evicted: set<Draft>)
    requires Generations(h) && Allowed(h, Record(d, e, overflowed)) && IsTerminal(e) && c.recoveryLimit > 0
    requires Step(c, h, Record(d, e, overflowed), h', evicted)
    ensures d !in evicted
  {
    var m := Recorded(c.limits, h, d, e, overflowed);
    MiddleGenerations(c, h, Record(d, e, overflowed));
    if Stamp(Started(h, d, e), d, e) != 0 {
      TerminalBuffer(c.limits, h, d, e, overflowed);
      TerminalGeneration(c.limits, h, d, e, overflowed);
      if k :| k in Idle(m) - evicted {
        assert m.buffers[k].generation <= m.nextGeneration;
      }
    }
  }

  lemma TerminalGeneration(l: Limits, h: Hub, d: Draft, e: Event, overflowed: set<StreamId>)
    requires IsTerminal(e) && Stamp(Started(h, d, e), d, e) != 0
    ensures Recorded(l, h, d, e, overflowed).nextGeneration == h.nextGeneration + 1
  {
  }

  /** In every run: whoever has been connected recoverably at any point of a turn is owed its end,
      however the connection went on; what the debt means, RecoveryDebt says. */
  lemma EveryoneInTheTurnIsOwed(c: Config, hubs: seq<Hub>, actions: seq<Action>, evictions: seq<set<Draft>>,
                                i: nat, j: nat, d: Draft, x: Client)
    requires Run(c, hubs, actions, evictions) && i <= j < |actions| && d in hubs[i].active && Connected(hubs[i], d, x)
    requires forall k :: i <= k < j ==> !Bounds(actions[k], d)
    requires actions[j].Record? && actions[j].draft == d && IsTerminal(actions[j].event) && d !in evictions[j]
    ensures Owes(hubs[j + 1], d, x, hubs[j].nextGeneration + 1)
  {
    forall k | i <= k < j && InTurn(hubs[k], d, x) ensures InTurn(hubs[k + 1], d, x) {
      ConcernStays(c, hubs, actions, evictions, k, d, x);
    }
    InTurnAlong(hubs, i, j, d, x);
    DebtStarts(c, hubs, actions, evictions, j, x);
  }

  // ---------------------------------------------------------------- who is owed

  /** The clients that are owed the end of the draft's last turn. */
  function Debtors(h: Hub, d: Draft): set<Client> {
    if d in h.buffers && h.buffers[d].generation != 0 then h.buffers[d].failed + h.buffers[d].pending.Values else {}
  }

  /** A terminal event is owed to exactly the clients it concerns. */
  lemma TerminalOwesExactly(l: Limits, h: Hub, d: Draft, e: Event, overflowed: set<StreamId>, x: Client)
    requires IsTerminal(e) && e.generation == 0
    ensures x in Debtors(Recorded(l, h, d, e, overflowed), d) <==> Concerned(h, d, x)
  {
    var pending, m := PendingAt(h, d, e), Recorded(l, h, d, e, overflowed);
    if Concerned(h, d, x) {
      PendingOrLost(h, d, e, overflowed, x);
      TerminalBuffer(l, h, d, e, overflowed);
    }
    if x in Debtors(m, d) {
      TerminalBuffer(l, h, d, e, overflowed);
      if x in (pending - overflowed).Values {
        var s :| s in pending - overflowed && (pending - overflowed)[s] == x;
        assert SubsOf(h, d)[s] == Subscriber(true, x);
      } else if x !in FailedOf(h, d) {
        var s :| s in overflowed && s in SubsOf(h, d) && SubsOf(h, d)[s].recoverable && SubsOf(h, d)[s].client == x;
        assert SubsOf(h, d)[s] == Subscriber(true, x);
      }
    }
  }

  /** An acknowledgement that is accepted settles the one client's debt on that way, and nobody
      else's: a client that has failed and is pending on another stream stays a debtor. */
  lemma SnapshotAckSettles(c: Config, h: Hub, d: Draft, y: Client, g: nat, x: Client)
    requires Accepts(h, d, g)
    ensures x in Debtors(Middle(c, h, AckSnapshot(d, y, g)), d)
      <==> x in Debtors(h, d) && (x != y || x in h.buffers[d].pending.Values)
  {
  }

  lemma EventAckSettles(c: Config, h: Hub, d: Draft, s: StreamId, g: nat, x: Client)
    requires Accepts(h, d, g) && s in h.buffers[d].pending
    ensures x in Debtors(Middle(c, h, AckEvent(d, s, g)), d)
      <==> x in Debtors(h, d)
           && (x != h.buffers[d].pending[s] || exists t :: t != s && t in h.buffers[d].pending && h.buffers[d].pending[t] == x)
  {
    var b, left := h.buffers[d], h.buffers[d].pending - {s};
    assert x in left.Values <==> exists t :: t in left && left[t] == x;
    if t :| t != s && t in b.pending && b.pending[t] == x {
      assert t in left && left[t] == x;
    }
  }

  /** A client that leaves while it is owed the end of the turn stays owed, and so do all others. */
  lemma LeavingKeepsDebtors(h: Hub, d: Draft, s: StreamId)
    ensures Debtors(Left(h, d, s), d) == Debtors(h, d)
  {
    var b := BufferOf(h, d);
    if d in h.subs && s in b.pending {
      var left := b.pending - {s};
      forall x ensures x in left.Values + {b.pending[s]} <==> x in b.pending.Values {
        if t :| t in b.pending && b.pending[t] == x {
          assert t != s ==> t in left && left[t] == x;
        }
      }
    }
  }
}
