/**
 * The hub as an object: its maps are updated in place under one mutex.  Every method takes a
 * step of StreamRecovery; the channels of the draft concerned are a DraftStreams object.
 */
module TurnStreamHubs {
  import opened ReplayBuffer
  import opened StreamDelivery
  import opened StreamRecovery
  import opened StreamTurns

  /** No empty entries, and no nameless recoverable client. */
  ghost predicate Tidy(h: Hub) {
    && (forall d :: d in h.subs ==> h.subs[d] != map[])
    && (forall d :: d in h.failed ==> h.failed[d] != {})
    && (forall d, s :: d in h.subs && s in h.subs[d] && h.subs[d][s].recoverable ==> h.subs[d][s].client != "")
  }

  /** Every pending client has a name. */
  ghost predicate Named(h: Hub) {
    forall d, s :: d in h.buffers && s in h.buffers[d].pending ==> h.buffers[d].pending[s] != ""
  }

  ghost predicate Moves(c: Config, h: Hub, a: Action, h': Hub, evicted: set<Draft>) {
    Allowed(h, a) && Step(c, h, a, h', evicted)
  }

  /** What Record does to the hub. */
  ghost predicate Records(c: Config, h: Hub, d: Draft, event: Event, overflowed: set<StreamId>, h': Hub,
                          evicted: set<Draft>)
  {
    && overflowed <= SubsOf(h, d).Keys
    && h' == Without(Recorded(c.limits, h, d, event, overflowed), evicted)
    && if Stamp(Started(h, d, event), d, event) != 0
       then Evicts(c.recoveryLimit, Recorded(c.limits, h, d, event, overflowed), evicted) else evicted == {}
  }

  lemma RecordsIsMove(c: Config, h: Hub, d: Draft, event: Event, overflowed: set<StreamId>, h': Hub,
                      evicted: set<Draft>)
    requires Records(c, h, d, event, overflowed, h', evicted) && event.generation == 0
    requires event.kind.TurnStarted? || IsTerminal(event) || d in h.active
    ensures Moves(c, h, Action.Record(d, event, overflowed), h', evicted)
  {
  }

  class TurnStreamHub {
    const config: Config
    const queueLimit: nat
    var buffers: map<Draft, DraftBuffer>
    var subs: map<Draft, map<StreamId, Subscriber>>
    var active: set<Draft>
    var failed: map<Draft, set<Client>>
    var nextGeneration: nat
    /** What has been recorded of every running turn. */
    ghost var turns: Turns

    function View(): Hub
      reads this
    {
      Hub(buffers, subs, active, failed, nextGeneration)
    }

    ghost predicate Sound()
      reads this
    {
      Tidy(View()) && Named(View()) && Generations(View()) && queueLimit >= 2
    }

    ghost predicate Valid()
      reads this
    {
      Sound() && Showing(config.limits, View(), turns)
    }

    /** `streams` are the channels of the draft's subscribers. */
    ghost predicate Attached(streams: DraftStreams, d: Draft)
      reads this, streams, streams.channels.Values
    {
      streams.Valid() && streams.channels.Keys == SubsOf(View(), d).Keys
    }

    /** Besides, its log ends with the running turn. */
    ghost predicate Serves(streams: DraftStreams, d: Draft)
      reads this, streams, streams.channels.Values
    {
      Attached(streams, d) && (d in turns ==> turns[d] == LastTurn(streams.log))
    }

    constructor (limits: Limits, queueLimit: nat, recoveryLimit: nat)
      ensures Valid() && View() == INITIAL && config == Config(limits, recoveryLimit) && turns == map[]
    {
      this.config := Config(limits, recoveryLimit);
      this.queueLimit := if queueLimit < 2 then 2 else queueLimit;
      buffers, subs, active, failed, nextGeneration := map[], map[], {}, map[], 0;
      turns := map[];
    }

    method EnforceRecoveryLimit() returns (ghost evicted: set<Draft>)
      requires Generations(View())
      modifies this`buffers, this`failed
      ensures Evicts(config.recoveryLimit, old(View()), evicted)
      ensures View() == Without(old(View()), evicted)
    {
      buffers, failed, evicted := EvictIdle(config.recoveryLimit, View(), buffers, failed);
    }

    method AddFailedClient(d: Draft, client: Client)
      modifies this`failed
      ensures client == "" ==> failed == old(failed)
      ensures client != "" ==> View() == WithFailed(old(View()), d, FailedOf(old(View()), d) + {client})
    {
      if client == "" {
        return;
      }
      failed := failed[d := FailedOf(View(), d) + {client}];
    }

    method ClearFailedClient(d: Draft, client: Client)
      requires Tidy(View())
      modifies this`failed
      ensures View() == WithFailed(old(View()), d, FailedOf(old(View()), d) - {client})
    {
      var left := FailedOf(View(), d) - {client};
      failed := if left == {} then failed - {d} else failed[d := left];
    }

    /** No action but Record changes what the turns are. */
    lemma StaysValid(h: Hub, a: Action, evicted: set<Draft>)
      requires Sound() && Generations(h) && Showing(config.limits, h, turns) && Moves(config, h, a, View(), evicted)
      requires !a.Record?
      ensures Valid()
    {
      StepShows(config, h, a, View(), evicted, turns);
    }

    /** Opens a stream, which carries exactly what is recorded after the snapshot; the snapshot
        accounts for what the running turn has recorded before. */
    method Subscribe(d: Draft, subscriber: Subscriber, s: StreamId, streams: DraftStreams)
      returns (snapshot: seq<Event>)
      requires Valid() && Serves(streams, d) && s !in streams.channels && s !in BufferOf(View(), d).pending
      requires subscriber.recoverable ==> subscriber.client != ""
      modifies this`subs, streams`channels, streams`from
      ensures Valid() && Serves(streams, d)
      ensures Moves(config, old(View()), Action.Subscribe(d, s, subscriber), View(), {})
      ensures snapshot == BufferOf(old(View()), d).buffer.events
      ensures d in active ==> Accounts(config.limits, BufferOf(old(View()), d).buffer, LastTurn(streams.log))
      ensures d !in active ==> (snapshot == [] <==> !IsOwed(BufferOf(old(View()), d)))
      ensures streams.log == old(streams.log) && streams.from == old(streams.from)[s := |streams.log|]
    {
      SnapshotShows(config.limits, View(), d, turns);
      snapshot := OpenStream(d, subscriber, s, streams);
      StaysValid(old(View()), Action.Subscribe(d, s, subscriber), {});
    }

    method OpenStream(d: Draft, subscriber: Subscriber, s: StreamId, streams: DraftStreams)
      returns (snapshot: seq<Event>)
      requires Sound() && Attached(streams, d) && s !in streams.channels && s !in BufferOf(View(), d).pending
      requires subscriber.recoverable ==> subscriber.client != ""
      modifies this`subs, streams`channels, streams`from
      ensures Sound() && Attached(streams, d)
      ensures Moves(config, old(View()), Action.Subscribe(d, s, subscriber), View(), {})
      ensures snapshot == BufferOf(old(View()), d).buffer.events
      ensures streams.log == old(streams.log) && streams.from == old(streams.from)[s := |streams.log|]
    {
      SubscribeIsStep(config, View(), d, s, subscriber);
      snapshot := BufferOf(View(), d).buffer.events;
      streams.Open(s, queueLimit);
      subs := subs[d := SubsOf(View(), d)[s := subscriber]];
    }

    /** The bookkeeping for the subscribers whose channels overflowed. */
    method DropOverflowed(d: Draft, overflowed: set<StreamId>)
      requires Tidy(View()) && overflowed <= SubsOf(View(), d).Keys
      modifies this`subs, this`failed
      ensures Tidy(View())
      ensures View() == Dropped(old(View()), d, overflowed)
      ensures SubsOf(View(), d).Keys == SubsOf(old(View()), d).Keys - overflowed
    {
      var here := SubsOf(View(), d);
      var lost := ClientsLost(View(), d, here, overflowed);
      var clients := FailedOf(View(), d) + lost;
      TidyFields(View(), d, clients, here - overflowed, WithSubs(WithFailed(View(), d, clients), d, here - overflowed));
      failed := if clients == {} then failed - {d} else failed[d := clients];
      subs := if here - overflowed == map[] then subs - {d} else subs[d := here - overflowed];
    }

    /** The first part of Record: a new turn forgets the last one's recovery. */
    method StartTurn(d: Draft, event: Event)
      modifies this`buffers, this`failed, this`active
      ensures View() == Started(old(View()), d, event)
    {
      if event.kind.TurnStarted? {
        buffers := buffers - {d};
        failed := failed - {d};
        active := active + {d};
      }
    }

    /** A terminal event that somebody may miss is stamped with a fresh generation. */
    method Freeze(d: Draft, event: Event) returns (frozen: Event, pending: map<StreamId, Client>)
      requires Tidy(View()) && event.generation == 0
      modifies this`nextGeneration
      ensures pending == PendingAt(old(View()), d, event)
      ensures frozen == event.(generation := Stamp(old(View()), d, event))
      ensures nextGeneration == if frozen.generation != 0 then frozen.generation else old(nextGeneration)
    {
      frozen, pending := event, PendingAt(View(), d, event);
      if IsTerminal(event) && (FailedOf(View(), d) != {} || pending != map[]) {
        nextGeneration := nextGeneration + 1;
        frozen := event.(generation := nextGeneration);
      }
    }

    /** The last part of Record: a terminal event leaves a recovery buffer, or nothing. */
    method FinishTurn(d: Draft, frozen: Event, pending: map<StreamId, Client>)
      modifies this`active, this`buffers
      ensures View() == Finished(config.limits, old(View()), d, frozen, pending)
    {
      if IsTerminal(frozen) {
        active := active - {d};
        if frozen.generation != 0 {
          buffers := buffers[d := RecoveryBuffer(config.limits, frozen, pending, FailedOf(View(), d))];
        } else {
          buffers := buffers - {d};
        }
      }
    }

    /** Record, before the delivery. */
    method BufferEvent(d: Draft, event: Event) returns (frozen: Event, pending: map<StreamId, Client>)
      requires Tidy(View()) && event.generation == 0
      modifies this`buffers, this`active, this`failed, this`nextGeneration
      ensures Tidy(View()) && View() == Noted(config.limits, old(View()), d, event, frozen)
      ensures frozen == event.(generation := Stamp(Started(old(View()), d, event), d, event))
      ensures pending == PendingAt(Started(old(View()), d, event), d, event) && subs == old(subs)
    {
      StartTurn(d, event);
      frozen, pending := Freeze(d, event);
      var current := BufferOf(View(), d);
      buffers := buffers[d := current.(buffer := Append(config.limits, current.buffer, frozen))];
    }

    /** The event is buffered, then handed to every subscriber of the draft. */
    method BufferAndDeliver(d: Draft, event: Event, streams: DraftStreams)
      returns (frozen: Event, pending: map<StreamId, Client>, overflowed: set<StreamId>)
      requires Tidy(View()) && Attached(streams, d) && event.generation == 0
      modifies this`buffers, this`active, this`failed, this`nextGeneration
      modifies streams`channels, streams`log, streams.channels.Values
      ensures Tidy(View()) && View() == Noted(config.limits, old(View()), d, event, frozen) && subs == old(subs)
      ensures frozen == event.(generation := Stamp(Started(old(View()), d, event), d, event))
      ensures pending == PendingAt(Started(old(View()), d, event), d, event)
      ensures overflowed <= SubsOf(View(), d).Keys && streams.channels.Keys == SubsOf(View(), d).Keys - overflowed
      ensures streams.Delivered(old(streams.channels), overflowed, old(streams.log), frozen, GapFrames(config.limits, frozen))
    {
      frozen, pending := BufferEvent(d, event);
      assert forall s :: s in streams.channels ==> streams.channels[s] as object != this as object;
      overflowed := streams.Deliver(frozen, GapFrames(config.limits, frozen));
    }

    /** Records an event: the replay buffer, the subscribers' channels, the recovery state. */
    method Record(d: Draft, event: Event, streams: DraftStreams)
      returns (overflowed: set<StreamId>, frozen: Event, ghost evicted: set<Draft>)
      requires Valid() && Serves(streams, d) && event.generation == 0
      requires event.kind.TurnStarted? || IsTerminal(event) || d in active
      modifies this`buffers, this`subs, this`active, this`failed, this`nextGeneration, this`turns
      modifies streams`channels, streams`log, streams.channels.Values
      ensures Valid() && Serves(streams, d) && turns == TurnsAfter(old(turns), Action.Record(d, event, overflowed))
      ensures Moves(config, old(View()), Action.Record(d, event, overflowed), View(), evicted)
      ensures frozen == event.(generation := Stamp(Started(old(View()), d, event), d, event))
      ensures streams.Delivered(old(streams.channels), overflowed, old(streams.log), frozen, GapFrames(config.limits, frozen))
    {
      overflowed, frozen, evicted := RecordEvent(d, event, streams);
      label recorded:
      NoteTurn(old(View()), Action.Record(d, event, overflowed), evicted);
      LastTurnGrows(old(streams.log), frozen);
      assert unchanged@recorded(streams) && unchanged@recorded(streams.channels.Values)
        && unchanged@recorded(old(streams.channels).Values);
      assert streams.Delivered(old(streams.channels), overflowed, old(streams.log), frozen, GapFrames(config.limits, frozen));
    }

    /** The ghost part of Record: the event belongs to the log of its turn. */
    ghost method NoteTurn(h: Hub, a: Action, evicted: set<Draft>)
      requires Sound() && Generations(h) && Showing(config.limits, h, turns) && Moves(config, h, a, View(), evicted)
      modifies this`turns
      ensures Valid() && View() == old(View()) && turns == TurnsAfter(old(turns), a)
    {
      StepShows(config, h, a, View(), evicted, turns);
      turns := TurnsAfter(turns, a);
    }

    /** All that Record does; what it amounts to over the whole turn, Record says. */
    method RecordEvent(d: Draft, event: Event, streams: DraftStreams)
      returns (overflowed: set<StreamId>, frozen: Event, ghost evicted: set<Draft>)
      requires Sound() && Attached(streams, d) && event.generation == 0
      requires event.kind.TurnStarted? || IsTerminal(event) || d in active
      modifies this`buffers, this`subs, this`active, this`failed, this`nextGeneration
      modifies streams`channels, streams`log, streams.channels.Values
      ensures Sound() && streams.channels.Keys == SubsOf(View(), d).Keys
      ensures Moves(config, old(View()), Action.Record(d, event, overflowed), View(), evicted)
      ensures frozen == event.(generation := Stamp(Started(old(View()), d, event), d, event))
      ensures streams.Delivered(old(streams.channels), overflowed, old(streams.log), frozen, GapFrames(config.limits, frozen))
    {
      var pending;
      frozen, pending, overflowed := BufferAndDeliver(d, event, streams);
      assert forall s :: s in old(streams.channels) ==> old(streams.channels)[s] as object != this as object;
      label delivered:
      evicted := FinishRecord(old(View()), d, event, frozen, overflowed, pending);
      assert unchanged@delivered(streams) && unchanged@delivered(streams.channels.Values)
        && unchanged@delivered(old(streams.channels).Values);
      assert streams.Delivered(old(streams.channels), overflowed, old(streams.log), frozen, GapFrames(config.limits, frozen));
    }

    /** Record, after the delivery and up to the eviction. */
    method SettleRecord(ghost h: Hub, d: Draft, ghost event: Event, frozen: Event,
                        overflowed: set<StreamId>, pending: map<StreamId, Client>)
      requires Tidy(View()) && View() == Noted(config.limits, h, d, event, frozen)
      requires overflowed <= SubsOf(h, d).Keys && subs == h.subs
      requires pending == PendingAt(Started(h, d, event), d, event)
      requires frozen == event.(generation := Stamp(Started(h, d, event), d, event))
      modifies this`buffers, this`subs, this`active, this`failed
      ensures Tidy(View()) && View() == Recorded(config.limits, h, d, event, overflowed)
      ensures SubsOf(View(), d).Keys == SubsOf(h, d).Keys - overflowed
    {
      DropOverflowed(d, overflowed);
      FinishTurn(d, frozen, pending - overflowed);
    }

    /** Record, after the delivery. */
    method FinishRecord(ghost h: Hub, d: Draft, ghost event: Event, frozen: Event,
                        overflowed: set<StreamId>, pending: map<StreamId, Client>)
      returns (ghost evicted: set<Draft>)
      requires Tidy(View()) && View() == Noted(config.limits, h, d, event, frozen)
      requires overflowed <= SubsOf(h, d).Keys && subs == h.subs
      requires Generations(h) && Named(h) && Tidy(h) && event.generation == 0
      requires event.kind.TurnStarted? || IsTerminal(event) || d in h.active
      requires pending == PendingAt(Started(h, d, event), d, event)
      requires frozen == event.(generation := Stamp(Started(h, d, event), d, event))
      modifies this`buffers, this`subs, this`active, this`failed
      ensures Tidy(View()) && Named(View()) && Generations(View())
      ensures Moves(config, h, Action.Record(d, event, overflowed), View(), evicted)
      ensures SubsOf(View(), d).Keys == SubsOf(h, d).Keys - overflowed
    {
      SettleRecord(h, d, event, frozen, overflowed, pending);
      RecordedKeeps(config.limits, h, d, event, overflowed, View());
      RecordedNamed(config.limits, h, d, event, overflowed, View());
      evicted := EvictAfter(frozen);
      RecordsIsMove(config, h, d, event, overflowed, View(), evicted);
    }

    /** The eviction at the end of Record. */
    method EvictAfter(frozen: Event) returns (ghost evicted: set<Draft>)
      requires Tidy(View()) && Named(View()) && Generations(View())
      modifies this`buffers, this`failed
      ensures Tidy(View()) && Named(View()) && Generations(View()) && View() == Without(old(View()), evicted)
      ensures if IsTerminal(frozen) && frozen.generation != 0
              then Evicts(config.recoveryLimit, old(View()), evicted) else evicted == {}
    {
      evicted := {};
      NothingRemoved(View());
      if IsTerminal(frozen) && frozen.generation != 0 {
        evicted := EnforceRecoveryLimit();
      }
      EvictionStaysTidy(old(View()), evicted);
    }

    /** The hub's part of unsubscribe, up to the eviction. */
    method Leave(d: Draft, s: StreamId)
      requires Tidy(View()) && Named(View()) && d in subs
      modifies this`subs, this`failed, this`buffers
      ensures View() == Left(old(View()), d, s)
    {
      ghost var h := View();
      var here := subs[d];
      var b := BufferOf(View(), d);
      FailedSame(h, d);
      if s in here && d in active && here[s].recoverable {
        AddFailedClient(d, here[s].client);
      }
      ghost var gone := FailedOf(h, d) + LostBy(h, d, s);
      assert LostBy(h, d, s) == {} ==> gone == FailedOf(h, d);
      assert View() == WithFailed(h, d, gone) && FailedOf(View(), d) == gone;
      assert MovedBy(h, d, s) == {} ==> gone + MovedBy(h, d, s) == gone;
      FailedTwice(h, d, gone, gone + MovedBy(h, d, s));
      if s in b.pending {
        AddFailedClient(d, b.pending[s]);
        buffers := buffers[d := b.(pending := b.pending - {s}, failed := b.failed + {b.pending[s]})];
      }
      subs := if here - {s} == map[] then subs - {d} else subs[d := here - {s}];
    }

    /** The hub's part of unsubscribe. */
    method Unregister(d: Draft, s: StreamId) returns (ghost evicted: set<Draft>)
      requires Sound() && d in subs
      modifies this`subs, this`failed, this`buffers
      ensures Sound() && Moves(config, old(View()), Action.Unsubscribe(d, s), View(), evicted)
      ensures SubsOf(View(), d).Keys == SubsOf(old(View()), d).Keys - {s}
    {
      ghost var h := View();
      var moved := s in BufferOf(View(), d).pending;
      Leave(d, s);
      LeftKeeps(config, h, d, s, View());
      LeftTidy(h, d, s, View());
      ghost var middle := View();
      evicted := {};
      NothingRemoved(middle);
      if moved && BufferOf(View(), d).pending == map[] {
        evicted := EnforceRecoveryLimit();
      }
      EvictionStaysTidy(middle, evicted);
    }

    /** A subscriber leaves: during a turn, or while pending, its client has failed. */
    method Unsubscribe(d: Draft, s: StreamId, streams: DraftStreams) returns (ghost evicted: set<Draft>)
      requires Valid() && Serves(streams, d)
      modifies this`subs, this`failed, this`buffers, streams`channels
      modifies if s in streams.channels then {streams.channels[s]} else {}
      ensures Valid() && Serves(streams, d)
      ensures Moves(config, old(View()), Action.Unsubscribe(d, s), View(), evicted)
      ensures s in old(streams.channels) ==> old(streams.channels)[s].closed
    {
      evicted := CloseStream(d, s, streams);
      StaysValid(old(View()), Action.Unsubscribe(d, s), evicted);
    }

    method CloseStream(d: Draft, s: StreamId, streams: DraftStreams) returns (ghost evicted: set<Draft>)
      requires Sound() && Attached(streams, d)
      modifies this`subs, this`failed, this`buffers, streams`channels
      modifies if s in streams.channels then {streams.channels[s]} else {}
      ensures Sound() && Attached(streams, d)
      ensures Moves(config, old(View()), Action.Unsubscribe(d, s), View(), evicted)
      ensures s in old(streams.channels) ==> old(streams.channels)[s].closed
    {
      evicted := {};
      NothingRemoved(View());
      if d !in subs {
        return;
      }
      assert forall t :: t in streams.channels ==> streams.channels[t] as object != this as object;
      if s in subs[d] {
        streams.Close(s);
      }
      label ended:
      evicted := Unregister(d, s);
      assert unchanged@ended(streams) && unchanged@ended(streams.channels.Values)
        && unchanged@ended(old(streams.channels).Values);
    }

    /** The common end of both acknowledgements. */
    method SettleClient(d: Draft, pending: map<StreamId, Client>, client: Client) returns (ghost evicted: set<Draft>)
      requires Sound() && d in buffers
      requires forall s :: s in pending ==> s in buffers[d].pending && pending[s] == buffers[d].pending[s]
      modifies this`buffers, this`failed
      ensures Sound()
      ensures SettlesDebt(config, old(View()), d, pending, client, View(), evicted)
    {
      ghost var h := View();
      var b := buffers[d].(pending := pending, failed := buffers[d].failed - {client});
      ClearFailedClient(d, client);
      if pending == map[] && b.failed == {} {
        FailedTwice(h, d, FailedOf(h, d) - {client}, {});
        buffers := buffers - {d};
        failed := failed - {d};
      } else {
        buffers := buffers[d := b];
      }
      ghost var middle := View();
      SettledKeeps(h, d, pending, client, middle);
      evicted := {};
      NothingRemoved(middle);
      if d in buffers && pending == map[] {
        evicted := EnforceRecoveryLimit();
      }
      EvictionStaysTidy(middle, evicted);
    }

    method AcknowledgeSnapshot(d: Draft, client: Client, generation: nat) returns (ghost evicted: set<Draft>)
      requires Valid()
      modifies this`buffers, this`failed
      ensures Valid() && Moves(config, old(View()), Action.AckSnapshot(d, client, generation), View(), evicted)
    {
      evicted := {};
      NothingRemoved(View());
      if generation == 0 || BufferOf(View(), d).generation != generation {
        return;
      }
      evicted := SettleClient(d, buffers[d].pending, client);
      StaysValid(old(View()), Action.AckSnapshot(d, client, generation), evicted);
    }

    method AcknowledgeEvent(d: Draft, s: StreamId, generation: nat) returns (ghost evicted: set<Draft>)
      requires Valid()
      modifies this`buffers, this`failed
      ensures Valid() && Moves(config, old(View()), Action.AckEvent(d, s, generation), View(), evicted)
    {
      evicted := {};
      NothingRemoved(View());
      if generation == 0 || BufferOf(View(), d).generation != generation || s !in BufferOf(View(), d).pending {
        return;
      }
      var pending: map<StreamId, Client> := buffers[d].pending;
      var left: map<StreamId, Client> := pending - {s};
      evicted := SettleClient(d, left, pending[s]);
      StaysValid(old(View()), Action.AckEvent(d, s, generation), evicted);
    }
  }

  ghost predicate SettlesDebt(c: Config, h: Hub, d: Draft, pending: map<StreamId, Client>, client: Client, h': Hub,
                          evicted: set<Draft>) {
    var middle := Settle(h, d, pending, client);
    && h' == Without(middle, evicted)
    && if d in middle.buffers && middle.buffers[d].pending == map[]
       then Evicts(c.recoveryLimit, middle, evicted) else evicted == {}
  }

  lemma SettledKeeps(h: Hub, d: Draft, pending: map<StreamId, Client>, client: Client, m: Hub)
    requires Tidy(h) && Named(h) && Generations(h) && d in h.buffers && m == Settle(h, d, pending, client)
    requires forall s :: s in pending ==> s in h.buffers[d].pending && pending[s] == h.buffers[d].pending[s]
    ensures Tidy(m) && Named(m) && Generations(m)
  {
  }

  lemma FailedSame(h: Hub, d: Draft)
    requires Tidy(h)
    ensures WithFailed(h, d, FailedOf(h, d)) == h
  {
    if d !in h.failed {
      assert h.failed - {d} == h.failed;
    } else {
      assert h.failed[d := h.failed[d]] == h.failed;
    }
  }

  lemma FailedTwice(h: Hub, d: Draft, a: set<Client>, b: set<Client>)
    ensures WithFailed(WithFailed(h, d, a), d, b) == WithFailed(h, d, b)
  {
    var f := WithFailed(h, d, a).failed;
    if b == {} {
      assert f - {d} == h.failed - {d};
    } else {
      assert f[d := b] == h.failed[d := b];
    }
  }

  lemma LeftKeeps(c: Config, h: Hub, d: Draft, s: StreamId, m: Hub)
    requires Generations(h) && m == Left(h, d, s)
    ensures Generations(m)
  {
    assert OnlyDraft(h, m, d) by {
      OthersOnlyDraft(c, h, Action.Unsubscribe(d, s));
    }
    OnlyDraftGenerations(h, m, d);
  }

  /** Tidy is a matter of two fields. */
  lemma TidyFields(h: Hub, d: Draft, clients: set<Client>, subs: map<StreamId, Subscriber>, m: Hub)
    requires Tidy(h) && m.failed == WithFailed(h, d, clients).failed && m.subs == WithSubs(h, d, subs).subs
    requires forall s :: s in subs && subs[s].recoverable ==> subs[s].client != ""
    ensures Tidy(m) && SubsOf(m, d) == subs
  {
  }

  lemma LeftTidy(h: Hub, d: Draft, s: StreamId, m: Hub)
    requires Tidy(h) && Named(h) && d in h.subs && m == Left(h, d, s)
    ensures Tidy(m) && Named(m) && SubsOf(m, d).Keys == SubsOf(h, d).Keys - {s}
  {
    LeftNamed(h, d, s, m);
    TidyFields(h, d, FailedOf(h, d) + LostBy(h, d, s) + MovedBy(h, d, s), h.subs[d] - {s}, m);
  }

  lemma LeftNamed(h: Hub, d: Draft, s: StreamId, m: Hub)
    requires Named(h) && m == Left(h, d, s)
    ensures Named(m)
  {
  }

  /** What Record does before it delivers. */
  function Noted(l: Limits, h: Hub, d: Draft, event: Event, frozen: Event): Hub {
    Buffered(l, Stamped(Started(h, d, event), frozen), d, frozen)
  }

  lemma RecordedNamed(l: Limits, h: Hub, d: Draft, event: Event, overflowed: set<StreamId>, m: Hub)
    requires Named(h) && Tidy(h) && m == Recorded(l, h, d, event, overflowed)
    ensures Named(m)
  {
  }

  lemma RecordedKeeps(l: Limits, h: Hub, d: Draft, event: Event, overflowed: set<StreamId>, m: Hub)
    requires Generations(h) && (event.kind.TurnStarted? || IsTerminal(event) || d in h.active)
    requires m == Recorded(l, h, d, event, overflowed)
    ensures Generations(m)
  {
    assert OnlyDraft(h, m, d) by {
      RecordedOnlyDraft(l, h, d, event, overflowed);
    }
    OnlyDraftGenerations(h, m, d);
  }

  /** A stream that overflows ends with a gap, and with the end of the turn if it is that which
      made it overflow. */
  lemma GapTellsTheEnd(l: Limits, frozen: Event)
    ensures var r := GapFrames(l, frozen);
      && 1 <= |r| <= 2 && r[0].kind == Gap
      && (IsTerminal(frozen) ==> r[1..] == [frozen]) && (!IsTerminal(frozen) ==> |r| == 1)
  {
  }

  /** What an overflowing channel ends with. */
  function GapFrames(l: Limits, frozen: Event): seq<Event> {
    [Event(Gap, 0, l.gapSize, 0)] + if IsTerminal(frozen) then [frozen] else []
  }

  lemma EvictionStaysTidy(h: Hub, evicted: set<Draft>)
    requires Tidy(h) && Named(h) && Generations(h)
    ensures Tidy(Without(h, evicted)) && Named(Without(h, evicted)) && Generations(Without(h, evicted))
  {
  }

  /** The clients that a loop over the overflowed streams finds. */
  method ClientsLost(ghost h: Hub, ghost d: Draft, here: map<StreamId, Subscriber>, overflowed: set<StreamId>)
    returns (lost: set<Client>)
    requires here == SubsOf(h, d) && overflowed <= here.Keys
    ensures lost == LostClients(h, d, overflowed)
  {
    lost := {};
    var rest := overflowed;
    while rest != {}
      invariant rest <= overflowed && lost == LostClients(h, d, overflowed - rest)
      decreases |rest|
    {
      var s :| s in rest;
      LostOneMore(h, d, overflowed - rest, s);
      assert overflowed - (rest - {s}) == overflowed - rest + {s};
      rest := rest - {s};
      if here[s].recoverable {
        lost := lost + {here[s].client};
      }
    }
    assert overflowed - rest == overflowed;
  }

  lemma SubscribeIsStep(c: Config, h: Hub, d: Draft, s: StreamId, subscriber: Subscriber)
    requires Tidy(h) && Generations(h) && (subscriber.recoverable ==> subscriber.client != "")
    requires s !in SubsOf(h, d) && s !in BufferOf(h, d).pending
    ensures Moves(c, h, Action.Subscribe(d, s, subscriber), h.(subs := h.subs[d := SubsOf(h, d)[s := subscriber]]), {})
    ensures Tidy(h.(subs := h.subs[d := SubsOf(h, d)[s := subscriber]]))
  {
    NothingRemoved(h.(subs := h.subs[d := SubsOf(h, d)[s := subscriber]]));
  }

  lemma LostOneMore(h: Hub, d: Draft, overflowed: set<StreamId>, s: StreamId)
    requires s in SubsOf(h, d)
    ensures LostClients(h, d, overflowed + {s}) ==
      LostClients(h, d, overflowed) + if SubsOf(h, d)[s].recoverable then {SubsOf(h, d)[s].client} else {}
  {
  }

  lemma NothingRemoved(h: Hub)
    ensures Without(h, {}) == h
  {
    assert h.buffers - {} == h.buffers && h.failed - {} == h.failed;
  }

  /** Part of an eviction: `evicted` are the oldest idle buffers, and no buffer too many. */
  ghost predicate Evicting(limit: nat, h: Hub, evicted: set<Draft>) {
    && OldestFirst(h, evicted)
    && (evicted != {} ==> |Idle(h) - evicted| >= limit)
  }

  /** enforceRecoveryLimit: evicts the oldest idle buffer until few enough are left. */
  method EvictIdle(limit: nat, ghost h: Hub, buffers0: map<Draft, DraftBuffer>, failed0: map<Draft, set<Client>>)
    returns (buffers: map<Draft, DraftBuffer>, failed: map<Draft, set<Client>>, ghost evicted: set<Draft>)
    requires Generations(h) && h.buffers == buffers0 && h.failed == failed0
    ensures Evicts(limit, h, evicted) && Evicted(h, evicted, buffers, failed)
    ensures buffers == buffers0 - evicted && failed == failed0 - evicted
  {
    buffers, failed, evicted := buffers0, failed0, {};
    NothingEvicted(limit, h);
    var done := false;
    while !done
      invariant Evicted(h, evicted, buffers, failed) && Evicting(limit, h, evicted)
      invariant done ==> Evicts(limit, h, evicted)
      decreases !done, Idle(h) - evicted
    {
      done, buffers, failed, evicted := EvictOnce(limit, h, evicted, buffers, failed);
    }
  }

  ghost predicate Evicted(h: Hub, evicted: set<Draft>, buffers: map<Draft, DraftBuffer>, failed: map<Draft, set<Client>>) {
    buffers == h.buffers - evicted && failed == h.failed - evicted
  }

  lemma NothingEvicted(limit: nat, h: Hub)
    ensures Evicted(h, {}, h.buffers, h.failed) && Evicting(limit, h, {})
  {
    assert h.buffers - {} == h.buffers && h.failed - {} == h.failed;
  }

  /** One round: a scan, and the removal of the oldest idle buffer if there are too many. */
  method EvictOnce(limit: nat, ghost h: Hub, ghost evicted: set<Draft>,
                   buffers: map<Draft, DraftBuffer>, failed: map<Draft, set<Client>>)
    returns (done: bool, buffers': map<Draft, DraftBuffer>, failed': map<Draft, set<Client>>, ghost evicted': set<Draft>)
    requires Generations(h) && Evicted(h, evicted, buffers, failed) && Evicting(limit, h, evicted)
    ensures Evicted(h, evicted', buffers', failed') && Evicting(limit, h, evicted')
    ensures if done then evicted' == evicted && Evicts(limit, h, evicted')
            else Idle(h) - evicted' < Idle(h) - evicted
  {
    var idle, oldest := ScanIdle(buffers);
    IdleWithout(h.buffers, evicted);
    if |idle| <= limit {
      EvictionDone(limit, h, evicted);
      return true, buffers, failed, evicted;
    }
    EvictOldest(limit, h, evicted, oldest);
    RemovedAlso(h, evicted, oldest, buffers, failed);
    return false, buffers - {oldest}, failed - {oldest}, evicted + {oldest};
  }

  lemma RemovedAlso(h: Hub, evicted: set<Draft>, oldest: Draft,
                    buffers: map<Draft, DraftBuffer>, failed: map<Draft, set<Client>>)
    requires Evicted(h, evicted, buffers, failed)
    ensures Evicted(h, evicted + {oldest}, buffers - {oldest}, failed - {oldest})
  {
  }

  lemma EvictionDone(limit: nat, h: Hub, evicted: set<Draft>)
    requires Evicting(limit, h, evicted) && |Idle(h) - evicted| <= limit
    ensures Evicts(limit, h, evicted)
  {
  }

  /** The evicted buffers are idle ones, each older than every idle buffer that stays. */
  ghost predicate OldestFirst(h: Hub, evicted: set<Draft>) {
    && evicted <= Idle(h)
    && forall r, k :: r in evicted && k in Idle(h) - evicted ==> h.buffers[r].generation < h.buffers[k].generation
  }

  /** Generations are unique, so the oldest idle buffer can go next. */
  lemma EvictOldest(limit: nat, h: Hub, evicted: set<Draft>, oldest: Draft)
    requires Generations(h) && Evicting(limit, h, evicted) && |Idle(h) - evicted| > limit
    requires IsOldest(h.buffers - evicted, Idle(h) - evicted, oldest)
    ensures Evicting(limit, h, evicted + {oldest}) && oldest in Idle(h) - evicted
  {
    assert Idle(h) - (evicted + {oldest}) == (Idle(h) - evicted) - {oldest};
    OldestGoesFirst(h, evicted, oldest);
  }

  lemma OldestGoesFirst(h: Hub, evicted: set<Draft>, oldest: Draft)
    requires Generations(h) && OldestFirst(h, evicted)
    requires IsOldest(h.buffers - evicted, Idle(h) - evicted, oldest)
    ensures OldestFirst(h, evicted + {oldest})
  {
    forall k | k in Idle(h) - evicted - {oldest} ensures h.buffers[oldest].generation < h.buffers[k].generation {
      assert k in h.buffers && oldest in h.buffers && k != oldest;
      assert k in h.buffers - evicted && oldest in h.buffers - evicted;
    }
  }

  ghost predicate IsOldest(buffers: map<Draft, DraftBuffer>, idle: set<Draft>, oldest: Draft) {
    oldest in idle && forall d :: d in idle && d in buffers && oldest in buffers ==>
      buffers[oldest].generation <= buffers[d].generation
  }

  /** One scan of enforceRecoveryLimit: the idle buffers, and the oldest of them. */
  method ScanIdle(buffers: map<Draft, DraftBuffer>) returns (idle: set<Draft>, oldest: Draft)
    ensures idle == IdleIn(buffers) && (idle != {} ==> IsOldest(buffers, idle, oldest))
  {
    idle, oldest := {}, "";
    var rest := buffers.Keys;
    while rest != {}
      invariant rest <= buffers.Keys
      invariant forall d :: d in idle <==> d in buffers && d !in rest && IsIdle(buffers[d])
      invariant idle != {} ==> IsOldest(buffers, idle, oldest)
      decreases |rest|
    {
      var d :| d in rest;
      rest := rest - {d};
      if buffers[d].generation == 0 || buffers[d].pending != map[] {
        continue;
      }
      if idle == {} || buffers[d].generation < buffers[oldest].generation {
        oldest := d;
      }
      idle := idle + {d};
    }
  }

  lemma IdleWithout(buffers: map<Draft, DraftBuffer>, evicted: set<Draft>)
    ensures IdleIn(buffers - evicted) == IdleIn(buffers) - evicted
  {
  }
}
