/**
 * Delivering events to one subscriber over a bounded channel, while the subscriber may
 * receive at any moment.
 */
module StreamDelivery {
  import opened ReplayBuffer
  import opened Subsequences

  type StreamId = nat

  class StreamChannel {
    const capacity: nat
    var queue: seq<Event>
    var closed: bool
    ghost var received: seq<Event>

    constructor (capacity: nat)
      ensures this.capacity == capacity && queue == [] && received == [] && !closed
    {
      this.capacity := capacity;
      queue, closed, received := [], false, [];
    }

    /** Everything the subscriber has got or can still get, in order. */
    ghost function Stream(): seq<Event>
      reads this
    {
      received + queue
    }

    predicate Valid()
      reads this
    {
      |queue| <= capacity && capacity >= 2
    }

    /** The subscriber receives any number of frames. */
    method SubscriberRuns()
      requires Valid()
      modifies this`queue, this`received
      ensures Valid() && Stream() == old(Stream()) && |queue| <= |old(queue)|
    {
      var n: nat :| n <= |queue|;
      received := received + queue[..n];
      queue := queue[n..];
      assert old(queue) == old(queue)[..n] + old(queue)[n..];
    }

    /** A send that must not block: the caller shows that there is room. */
    method Send(e: Event)
      requires Valid() && !closed && |queue| < capacity
      modifies this`queue
      ensures Valid() && queue == old(queue) + [e] && Stream() == old(Stream()) + [e]
    {
      queue := queue + [e];
    }

    /** The non-blocking receive with which the hub gives up the oldest frame. */
    method Evict(ghost original: seq<Event>)
      requires Valid() && Subsequence(Stream(), original)
      modifies this`queue
      ensures Valid() && Subsequence(Stream(), original)
      ensures queue == (if old(queue) == [] then [] else old(queue)[1..])
      ensures |Stream()| >= |old(Stream())| - 1
    {
      if queue != [] {
        assert queue == [queue[0]] + queue[1..];
        assert Stream() == received + [queue[0]] + queue[1..];
        WithoutOne(received, queue[0], queue[1..], original);
        queue := queue[1..];
      }
    }

    /** Gives up to `n` oldest frames, so that as many fit. */
    method MakeRoom(n: nat, ghost original: seq<Event>)
      requires Valid() && !closed && n <= capacity && Subsequence(Stream(), original)
      modifies this`queue, this`received
      ensures Valid() && Subsequence(Stream(), original)
      ensures |queue| <= capacity - n && |Stream()| >= |old(Stream())| - n
    {
      for i := 0 to n
        invariant Valid() && Subsequence(Stream(), original)
        invariant |queue| <= capacity - i && |Stream()| >= |old(Stream())| - i
      {
        SubscriberRuns();
        Evict(original);
      }
    }

    method SendAll(frames: seq<Event>)
      requires Valid() && !closed && |queue| + |frames| <= capacity
      modifies this`queue, this`received
      ensures Valid() && Stream() == old(Stream()) + frames
    {
      for i := 0 to |frames|
        invariant Valid() && |queue| <= capacity - |frames| + i
        invariant Stream() == old(Stream()) + frames[..i]
      {
        SubscriberRuns();
        Send(frames[i]);
        assert frames[..i + 1] == frames[..i] + [frames[i]];
      }
      assert frames[..|frames|] == frames;
    }

    /** Record's delivery to one subscriber.  The subscriber may run between any two channel
        operations; no send ever blocks. */
    method Deliver(e: Event, recovery: seq<Event>) returns (overflowed: bool)
      requires Valid() && !closed && |recovery| <= 2
      modifies this
      ensures Valid() && closed == overflowed
      ensures !overflowed ==> Stream() == old(Stream()) + [e]
      ensures overflowed ==> CutShort(Stream(), old(Stream()), recovery)
    {
      ghost var original := Stream();
      SubsequenceOfSelf(original);
      SubscriberRuns();
      if |queue| < capacity {
        Send(e);
        SubscriberRuns();
        return false;
      }
      MakeRoom(|recovery|, original);
      ghost var kept := Stream();
      SendAll(recovery);
      closed := true;
      SubscriberRuns();
      overflowed := true;
      assert Stream() == kept + recovery;
    }
  }

  /** The stream ended with the recovery frames, after giving up at most that many frames. */
  ghost predicate CutShort(stream: seq<Event>, original: seq<Event>, recovery: seq<Event>) {
    exists kept :: stream == kept + recovery && Subsequence(kept, original) && |kept| >= |original| - |recovery|
  }

  /** The open streams of one draft. */
  class DraftStreams {
    var channels: map<StreamId, StreamChannel>
    /** Everything recorded for the draft, and how much of it came before a subscription. */
    ghost var log: seq<Event>
    ghost var from: map<StreamId, nat>

    ghost predicate Apart()
      reads this
    {
      && channels.Keys <= from.Keys
      && (forall s :: s in channels ==> from[s] <= |log|)
      && (forall s, t :: s in channels && t in channels && s != t ==> channels[s] != channels[t])
    }

    /** The channel is open and has been handed exactly `events`, in order. */
    ghost predicate Carries(s: StreamId, events: seq<Event>)
      requires s in channels
      reads this, channels[s]
    {
      channels[s].Valid() && !channels[s].closed && channels[s].Stream() == events
    }

    /** Lossless: every open stream carries exactly what was recorded since it subscribed. */
    ghost predicate Valid()
      reads this, channels.Values
    {
      Apart() && forall s :: s in channels ==> Carries(s, log[from[s]..])
    }

    constructor ()
      ensures Valid() && channels == map[] && log == []
    {
      channels, log, from := map[], [], map[];
    }

    method Open(s: StreamId, capacity: nat)
      requires Valid() && s !in channels && capacity >= 2
      modifies this`channels, this`from
      ensures Valid() && log == old(log) && from == old(from)[s := |log|]
      ensures s in channels && channels == old(channels)[s := channels[s]] && fresh(channels[s])
    {
      var channel := new StreamChannel(capacity);
      channels := channels[s := channel];
      from := from[s := |log|];
    }

    method Close(s: StreamId)
      requires Valid() && s in channels
      modifies this`channels, channels[s]
      ensures Valid() && channels == old(channels) - {s} && old(channels)[s].closed
      ensures old(channels)[s].Stream() == old(channels[s].Stream())
    {
      channels[s].closed := true;
      channels := channels - {s};
    }

    ghost predicate Ended(channel: StreamChannel, original: seq<Event>, recovery: seq<Event>)
      reads channel
    {
      channel.closed && CutShort(channel.Stream(), original, recovery)
    }

    /** The state of a subscriber before and after its turn. */
    ghost predicate Reached(s: StreamId, e: Event, recovery: seq<Event>, full: bool)
      requires s in channels && s in from && from[s] <= |log|
      reads this, channels[s]
    {
      if full then Ended(channels[s], log[from[s]..], recovery) else Carries(s, log[from[s]..] + [e])
    }

    /** Everyone but `rest` has had a turn, and `overflowed` are those whose channel was full. */
    ghost predicate Progress(e: Event, recovery: seq<Event>, rest: set<StreamId>, overflowed: set<StreamId>)
      reads this, channels.Values
    {
      && Apart()
      && (forall s :: s in rest || s in overflowed ==> s in channels)
      && (forall s :: s in channels && s in rest ==> Carries(s, log[from[s]..]))
      && (forall s :: s in channels && s !in rest ==> Reached(s, e, recovery, s in overflowed))
    }

    method DeliverNext(s: StreamId, e: Event, recovery: seq<Event>, ghost rest: set<StreamId>, overflowed: set<StreamId>)
      returns (overflowed': set<StreamId>)
      requires Progress(e, recovery, rest, overflowed) && s in rest && s !in overflowed && |recovery| <= 2
      modifies channels[s]
      ensures Progress(e, recovery, rest - {s}, overflowed')
      ensures overflowed <= overflowed' <= overflowed + {s}
    {
      assert forall t :: t in channels && t != s ==> channels[t] != channels[s];
      var full := channels[s].Deliver(e, recovery);
      overflowed' := if full then overflowed + {s} else overflowed;
      assert Reached(s, e, recovery, full);
      forall t | t in channels && t !in rest - {s} && t != s
        ensures Reached(t, e, recovery, t in overflowed')
      {
        assert old(Reached(t, e, recovery, t in overflowed));
      }
    }

    /** The loop of Record over the subscribers, all of whom may be receiving meanwhile. */
    method DeliverAll(e: Event, recovery: seq<Event>) returns (overflowed: set<StreamId>)
      requires Valid() && |recovery| <= 2
      modifies channels.Values
      ensures overflowed <= channels.Keys
      ensures forall s :: s in channels ==> Reached(s, e, recovery, s in overflowed)
    {
      var rest := channels.Keys;
      overflowed := {};
      while rest != {}
        invariant Progress(e, recovery, rest, overflowed) && rest !! overflowed
        decreases |rest|
      {
        var s :| s in rest;
        overflowed := DeliverNext(s, e, recovery, rest, overflowed);
        rest := rest - {s};
      }
    }

    /** The event is recorded, and the streams that overflowed are forgotten. */
    method Conclude(e: Event, ghost recovery: seq<Event>, overflowed: set<StreamId>)
      requires Apart() && forall s :: s in channels ==> Reached(s, e, recovery, s in overflowed)
      modifies this`channels, this`log
      ensures Valid() && log == old(log) + [e] && channels == old(channels) - overflowed
    {
      forall s | s in channels && s !in overflowed ensures Carries(s, (log + [e])[from[s]..]) {
        assert (log + [e])[from[s]..] == log[from[s]..] + [e];
        assert Reached(s, e, recovery, false);
      }
      log := log + [e];
      channels := channels - overflowed;
    }

    /** The overflowed streams of `all` have ended with the recovery frames. */
    ghost predicate AllEnded(all: map<StreamId, StreamChannel>, overflowed: set<StreamId>, before: seq<Event>,
                             recovery: seq<Event>)
      reads this, all.Values
    {
      forall s :: s in overflowed && s in all ==>
        s in from && from[s] <= |before| && Ended(all[s], before[from[s]..], recovery)
    }

    /** Event `e` was recorded and delivered: the overflowed streams have ended with the recovery
        frames, the others are left and carry it. */
    ghost predicate Delivered(all: map<StreamId, StreamChannel>, overflowed: set<StreamId>, before: seq<Event>,
                              e: Event, recovery: seq<Event>)
      reads this, channels.Values, all.Values
    {
      && Valid() && log == before + [e] && channels == all - overflowed && overflowed <= all.Keys
      && AllEnded(all, overflowed, before, recovery)
    }

    /** Record's delivery to every subscriber. */
    method Deliver(e: Event, recovery: seq<Event>) returns (overflowed: set<StreamId>)
      requires Valid() && |recovery| <= 2
      modifies this`channels, this`log, channels.Values
      ensures Delivered(old(channels), overflowed, old(log), e, recovery)
    {
      overflowed := DeliverAll(e, recovery);
      forall s | s in overflowed ensures Ended(channels[s], log[from[s]..], recovery) {
        assert Reached(s, e, recovery, true);
      }
      Conclude(e, recovery, overflowed);
    }
  }
}
