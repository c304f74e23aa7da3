/**
 * The replay buffer of a running turn: bounded in events and in bytes, it gives up its
 * oldest text deltas first and collapses to one marker when that is not enough.
 */
module ReplayBuffer {
  datatype Kind = TurnStarted | TextDelta | TurnEnded | TurnError | Gap | SnapshotTruncated | OtherKind(name: string)

  /** `size` is the length of the public encoding, which leaves the generation out. */
  datatype Event = Event(kind: Kind, payload: nat, size: nat, generation: nat)

  datatype Limits = Limits(events: nat, bytes: nat, markerSize: nat, gapSize: nat, terminalSize: nat)

  datatype Buffer = Buffer(events: seq<Event>, bytes: int, truncated: bool)

  const EMPTY: Buffer := Buffer([], 0, false)

  predicate IsTerminal(e: Event) { e.kind.TurnEnded? || e.kind.TurnError? }

  function Marker(l: Limits): Event { Event(SnapshotTruncated, 0, l.markerSize, 0) }

  function Size(events: seq<Event>): nat {
    if events == [] then 0 else events[0].size + Size(events[1..])
  }

  predicate Over(l: Limits, events: seq<Event>) { |events| > l.events || Size(events) > l.bytes }

  /** Where the oldest text delta is; the length if there is none. */
  function OldestDelta(events: seq<Event>): (i: nat)
    ensures i <= |events| && (i < |events| ==> events[i].kind.TextDelta?)
    ensures forall j :: 0 <= j < i ==> !events[j].kind.TextDelta?
  {
    if events == [] || events[0].kind.TextDelta? then 0 else 1 + OldestDelta(events[1..])
  }

  function Remove(events: seq<Event>, i: nat): seq<Event>
    requires i < |events|
  {
    events[..i] + events[i + 1..]
  }

  /** Gives up the oldest text deltas, one at a time, until the events fit. */
  function Trim(l: Limits, events: seq<Event>): (r: seq<Event>)
    ensures |r| <= |events|
    decreases |events|
  {
    if Over(l, events) && OldestDelta(events) < |events|
    then Trim(l, Remove(events, OldestDelta(events)))
    else events
  }

  function Collapsed(l: Limits): Buffer { Buffer([Marker(l)], l.markerSize, true) }

  function Truncate(l: Limits, b: Buffer): Buffer {
    var events := Trim(l, b.events);
    if Over(l, events) then Collapsed(l)
    else if events == b.events || b.truncated then Buffer(events, Size(events), b.truncated)
    else
      var marked := Trim(l, [Marker(l)] + events);
      if Over(l, marked) then Collapsed(l) else Buffer(marked, Size(marked), true)
  }

  function Append(l: Limits, b: Buffer, e: Event): Buffer {
    Truncate(l, Buffer(b.events + [e], b.bytes + e.size, b.truncated))
  }

  // ---------------------------------------------------------------- the loops

  lemma {:induction false} SizeAppend(a: seq<Event>, b: seq<Event>)
    ensures Size(a + b) == Size(a) + Size(b)
  {
    if a == [] {
      assert a + b == b;
    } else {
      assert (a + b)[1..] == a[1..] + b;
      SizeAppend(a[1..], b);
    }
  }

  lemma SizeRemove(events: seq<Event>, i: nat)
    requires i < |events|
    ensures Size(Remove(events, i)) == Size(events) - events[i].size
  {
    SizeAppend(events[..i], events[i + 1..]);
    SizeAppend(events[..i], events[i..]);
    assert events == events[..i] + events[i..] && events[i..][1..] == events[i + 1..];
  }

  class TurnStreamBuffer {
    var events: seq<Event>
    var bytes: int
    var truncated: bool

    predicate Accounted()
      reads this
    {
      bytes == Size(events)
    }

    function View(): Buffer
      reads this
    {
      Buffer(events, bytes, truncated)
    }

    constructor ()
      ensures View() == EMPTY && Accounted()
    {
      events, bytes, truncated := [], 0, false;
    }

    predicate OverLimit(l: Limits)
      reads this
    {
      |events| > l.events || bytes > l.bytes
    }

    /** One of truncateBuffer's two identical loops; `fits` is false when it ran out of deltas. */
    method DropDeltas(l: Limits) returns (fits: bool, dropped: bool)
      requires Accounted()
      modifies this`events, this`bytes
      ensures Accounted() && events == Trim(l, old(events)) && fits == !Over(l, events)
      ensures dropped <==> events != old(events)
    {
      dropped := false;
      while OverLimit(l)
        invariant Accounted() && Trim(l, events) == Trim(l, old(events))
        invariant |events| <= |old(events)| && (dropped <==> |events| < |old(events)|)
        invariant !dropped ==> events == old(events)
        decreases |events|
      {
        var index := OldestDelta(events);
        if index == |events| {
          return false, dropped;
        }
        SizeRemove(events, index);
        bytes := bytes - events[index].size;
        events := Remove(events, index);
        dropped := true;
      }
      fits := true;
    }

    method ReplaceWithMarker(l: Limits)
      modifies this
      ensures Accounted() && View() == Collapsed(l)
    {
      events, bytes, truncated := [Marker(l)], l.markerSize, true;
    }

    method TruncateBuffer(l: Limits)
      requires Accounted()
      modifies this
      ensures Accounted() && View() == Truncate(l, old(View()))
    {
      var fits, dropped := DropDeltas(l);
      if !fits {
        ReplaceWithMarker(l);
        return;
      }
      if !dropped || truncated {
        return;
      }
      SizeAppend([Marker(l)], events);
      events := [Marker(l)] + events;
      bytes := bytes + l.markerSize;
      truncated := true;
      fits, dropped := DropDeltas(l);
      if !fits {
        ReplaceWithMarker(l);
      }
    }

    /** What Record does to the buffer. */
    method Record(l: Limits, e: Event)
      requires Accounted()
      modifies this
      ensures Accounted() && View() == Append(l, old(View()), e)
    {
      SizeAppend(events, [e]);
      events := events + [e];
      bytes := bytes + e.size;
      TruncateBuffer(l);
    }
  }

  // ---------------------------------------------------------------- what the buffer contains

  function Deltas(log: seq<Event>): nat {
    if log == [] then 0 else (if log[0].kind.TextDelta? then 1 else 0) + Deltas(log[1..])
  }

  /** The log without its `k` oldest text deltas. */
  function WithoutOldest(log: seq<Event>, k: nat): seq<Event> {
    if k == 0 || log == [] then log
    else if log[0].kind.TextDelta? then WithoutOldest(log[1..], k - 1)
    else [log[0]] + WithoutOldest(log[1..], k)
  }

  lemma {:induction false} WithoutOldestAppend(log: seq<Event>, k: nat, e: Event)
    requires k <= Deltas(log)
    ensures WithoutOldest(log, k) + [e] == WithoutOldest(log + [e], k)
    ensures Deltas(log) <= Deltas(log + [e])
  {
    if log == [] {
    } else {
      assert (log + [e])[1..] == log[1..] + [e];
      if log[0].kind.TextDelta? {
        if k > 0 {
          WithoutOldestAppend(log[1..], k - 1, e);
        } else {
          WithoutOldestAppend(log[1..], 0, e);
        }
      } else {
        WithoutOldestAppend(log[1..], k, e);
      }
    }
  }

  lemma RemoveBehind(base: seq<Event>, rest: seq<Event>, i: nat)
    requires i < |rest|
    ensures Remove(base + rest, |base| + i) == base + Remove(rest, i)
  {
    assert (base + rest)[..|base| + i] == base + rest[..i];
    assert (base + rest)[|base| + i + 1..] == rest[i + 1..];
  }

  lemma {:induction false} OldestBehind(base: seq<Event>, rest: seq<Event>)
    requires Deltas(base) == 0
    ensures OldestDelta(base + rest) == |base| + OldestDelta(rest)
  {
    if base == [] {
      assert base + rest == rest;
    } else {
      var all := base + rest;
      assert all[0] == base[0] && all[1..] == base[1..] + rest;
      OldestBehind(base[1..], rest);
      assert OldestDelta(all) == 1 + OldestDelta(all[1..]);
    }
  }

  /** Removing the oldest delta of what is left gives up one more of the log. */
  lemma {:induction false} OneMore(log: seq<Event>, k: nat)
    requires k <= Deltas(log)
    ensures OldestDelta(WithoutOldest(log, k)) < |WithoutOldest(log, k)| <==> k < Deltas(log)
    ensures k < Deltas(log) ==>
      Remove(WithoutOldest(log, k), OldestDelta(WithoutOldest(log, k))) == WithoutOldest(log, k + 1)
  {
    if log == [] {
    } else if log[0].kind.TextDelta? {
      if k > 0 {
        OneMore(log[1..], k - 1);
      } else {
        assert Remove(log, 0) == log[1..];
      }
    } else {
      var rest := WithoutOldest(log[1..], k);
      OneMore(log[1..], k);
      assert WithoutOldest(log, k) == [log[0]] + rest;
      OldestBehind([log[0]], rest);
      if k < Deltas(log) { RemoveBehind([log[0]], rest, OldestDelta(rest)); }
    }
  }

  lemma TrimStep(l: Limits, events: seq<Event>, next: seq<Event>)
    requires Over(l, events) && OldestDelta(events) < |events|
    requires next == Remove(events, OldestDelta(events))
    ensures Trim(l, events) == Trim(l, next)
  {
  }

  lemma TrimStops(l: Limits, events: seq<Event>)
    requires !(Over(l, events) && OldestDelta(events) < |events|)
    ensures Trim(l, events) == events
  {
  }

  /** What is left of the log, behind a prefix. */
  function LeftOf(base: seq<Event>, log: seq<Event>, k: nat): seq<Event> { base + WithoutOldest(log, k) }

  /** Where the oldest delta is behind a delta-free prefix, and what its removal leaves. */
  lemma RemoveFromLeft(base: seq<Event>, log: seq<Event>, k: nat)
    requires k < Deltas(log) && Deltas(base) == 0
    ensures var now := LeftOf(base, log, k);
      OldestDelta(now) < |now| && Remove(now, OldestDelta(now)) == LeftOf(base, log, k + 1)
  {
    var now := WithoutOldest(log, k);
    OneMore(log, k);
    OldestBehind(base, now);
    RemoveBehind(base, now, OldestDelta(now));
  }

  lemma NothingToRemove(base: seq<Event>, log: seq<Event>)
    requires Deltas(base) == 0
    ensures var now := LeftOf(base, log, Deltas(log)); OldestDelta(now) == |now|
  {
    OneMore(log, Deltas(log));
    OldestBehind(base, WithoutOldest(log, Deltas(log)));
  }

  /** One round of the trimming loop. */
  lemma TrimRound(l: Limits, base: seq<Event>, log: seq<Event>, k: nat)
    requires k <= Deltas(log) && Deltas(base) == 0
    ensures Trim(l, LeftOf(base, log, k)) ==
      if Over(l, LeftOf(base, log, k)) && k < Deltas(log) then Trim(l, LeftOf(base, log, k + 1)) else LeftOf(base, log, k)
  {
    if k == Deltas(log) {
      NothingToRemove(base, log);
      TrimStops(l, LeftOf(base, log, k));
    } else if Over(l, LeftOf(base, log, k)) {
      RemoveFromLeft(base, log, k);
      TrimStep(l, LeftOf(base, log, k), LeftOf(base, log, k + 1));
    } else {
      TrimStops(l, LeftOf(base, log, k));
    }
  }

  /** Trimming a delta-free prefix and the rest of a log gives up just enough of the oldest
      deltas, or all of them. */
  lemma {:induction false} TrimGivesUpOldest(l: Limits, base: seq<Event>, log: seq<Event>, k: nat) returns (n: nat)
    requires k <= Deltas(log) && Deltas(base) == 0
    ensures k <= n <= Deltas(log)
    ensures Trim(l, LeftOf(base, log, k)) == LeftOf(base, log, n)
    ensures Over(l, LeftOf(base, log, n)) ==> n == Deltas(log)
    ensures forall j :: k <= j < n ==> Over(l, LeftOf(base, log, j))
    decreases Deltas(log) - k
  {
    TrimRound(l, base, log, k);
    if Over(l, LeftOf(base, log, k)) && k < Deltas(log) {
      n := TrimGivesUpOldest(l, base, log, k + 1);
    } else {
      n := k;
    }
  }

  /** Giving up more of the log never takes more room. */
  lemma {:induction false} FewerFits(l: Limits, base: seq<Event>, log: seq<Event>, k: nat, n: nat)
    requires k <= n <= Deltas(log) && Over(l, LeftOf(base, log, n))
    ensures Over(l, LeftOf(base, log, k))
    decreases n - k
  {
    if k < n {
      FewerFits(l, base, log, k + 1, n);
      OneMore(log, k);
      var now := WithoutOldest(log, k);
      SizeRemove(now, OldestDelta(now));
      SizeAppend(base, now);
      SizeAppend(base, WithoutOldest(log, k + 1));
    }
  }

  /** A longer log takes no less room, and nor does a marker. */
  lemma LongerIsOver(l: Limits, base: seq<Event>, log: seq<Event>, k: nat, e: Event)
    requires k <= Deltas(log) && Over(l, LeftOf(base, log, k))
    ensures k <= Deltas(log + [e]) && Over(l, LeftOf(base, log + [e], k))
  {
    WithoutOldestAppend(log, k, e);
    assert LeftOf(base, log + [e], k) == LeftOf(base, log, k) + [e];
    SizeAppend(LeftOf(base, log, k), [e]);
  }

  lemma MarkerIsOver(l: Limits, log: seq<Event>, k: nat)
    requires Over(l, LeftOf([], log, k))
    ensures Over(l, LeftOf([Marker(l)], log, k))
  {
    SizeAppend([Marker(l)], WithoutOldest(log, k));
    assert LeftOf([], log, k) == WithoutOldest(log, k);
  }

  /** The buffer holds the log from `from` on, without its `k` oldest deltas, behind the marker
      once anything is missing; `k` is as small as can be. */
  ghost predicate Holds(l: Limits, b: Buffer, log: seq<Event>, from: nat, k: nat)
    requires from <= |log|
  {
    && k <= Deltas(log[from..])
    && b.bytes == Size(b.events)
    && b.events == LeftOf(if b.truncated then [Marker(l)] else [], log[from..], k)
    && (!b.truncated ==> from == 0 && k == 0)
    && (!Over(l, b.events) || b == Collapsed(l))
    && (k > 0 ==> Over(l, LeftOf([Marker(l)], log[from..], k - 1)))
  }

  /** Neither the whole of the log fits nor, with the marker, what is left without any delta. */
  ghost predicate FitsNowhere(l: Limits, log: seq<Event>, truncated: bool) {
    && Over(l, LeftOf([Marker(l)], log, Deltas(log)))
    && (!truncated ==> Over(l, log))
  }

  /** What truncating `rest` leaves, by whether something was missing already. */
  ghost predicate Stands(l: Limits, rest: seq<Event>, truncated: bool, b: Buffer, gone: nat, k: nat) {
    if FitsNowhere(l, rest, truncated) then gone == 1 && k == 0 && b == Collapsed(l)
    else
      && gone == 0 && k <= Deltas(rest) && !Over(l, b.events)
      && b == Buffer(LeftOf(if b.truncated then [Marker(l)] else [], rest, k), Size(b.events), b.truncated)
      && (truncated ==> b.truncated)
      && (!b.truncated ==> k == 0)
      && (k > 0 ==> Over(l, LeftOf([Marker(l)], rest, k - 1)))
  }

  /** One more event behind a buffer that holds the log since `from`. */
  lemma Pushed(l: Limits, b: Buffer, log: seq<Event>, from: nat, k: nat, e: Event)
    requires from <= |log| && Holds(l, b, log, from, k)
    ensures var rest := log[from..] + [e];
      && k <= Deltas(rest)
      && b.events + [e] == LeftOf(if b.truncated then [Marker(l)] else [], rest, k)
      && (k > 0 ==> Over(l, LeftOf([Marker(l)], rest, k - 1)))
  {
    WithoutOldestAppend(log[from..], k, e);
    if k > 0 { LongerIsOver(l, [Marker(l)], log[from..], k - 1, e); }
  }

  lemma StandsHolds(l: Limits, rest: seq<Event>, truncated: bool, b: Buffer, gone: nat, k: nat, log: seq<Event>, from: nat)
    requires Stands(l, rest, truncated, b, gone, k) && from <= |log| && log[from..] == rest
    requires !truncated ==> from == 0
    ensures Holds(l, b, log, if gone == 1 then |log| else from, k)
  {
    assert log[|log|..] == [];
    if gone == 1 {
      assert LeftOf([Marker(l)], [], 0) == [Marker(l)];
      assert Size([Marker(l)]) == l.markerSize;
    }
  }

  lemma AppendStands(l: Limits, b: Buffer, log: seq<Event>, from: nat, k: nat, e: Event, rest: seq<Event>)
    returns (gone: nat, k': nat)
    requires from <= |log| && Holds(l, b, log, from, k) && rest == log[from..] + [e]
    ensures Stands(l, rest, b.truncated, Append(l, b, e), gone, k')
  {
    Pushed(l, b, log, from, k, e);
    if b.truncated {
      gone, k' := TruncatedHolds(l, rest, k, b.bytes + e.size);
    } else {
      assert LeftOf([], rest, 0) == rest;
      gone, k' := UntruncatedHolds(l, rest, b.bytes + e.size);
    }
  }

  /** The buffer collapses at exactly the event with which the log since `from` fits no more. */
  lemma AppendHolds(l: Limits, b: Buffer, log: seq<Event>, from: nat, k: nat, e: Event)
    returns (from': nat, k': nat)
    requires from <= |log| && Holds(l, b, log, from, k)
    ensures from' <= |log| + 1 && Holds(l, Append(l, b, e), log + [e], from', k')
    ensures if FitsNowhere(l, log[from..] + [e], b.truncated)
            then from' == |log| + 1 && Append(l, b, e) == Collapsed(l) else from' == from
  {
    var rest := log[from..] + [e];
    var gone;
    gone, k' := AppendStands(l, b, log, from, k, e, rest);
    assert (log + [e])[from..] == rest;
    StandsHolds(l, rest, b.truncated, Append(l, b, e), gone, k', log + [e], from);
    from' := if gone == 1 then |log| + 1 else from;
  }

  /** Truncating a whole log that does not fit: what is left is `k` deltas short, unmarked. */
  lemma Unmarked(l: Limits, rest: seq<Event>) returns (k: nat)
    requires Over(l, rest)
    ensures k <= Deltas(rest) && Trim(l, rest) == LeftOf([], rest, k)
    ensures if Over(l, Trim(l, rest)) then Over(l, LeftOf([Marker(l)], rest, Deltas(rest)))
            else k > 0 && Over(l, LeftOf([Marker(l)], rest, k - 1))
  {
    assert LeftOf([], rest, 0) == rest;
    k := TrimGivesUpOldest(l, [], rest, 0);
    if Over(l, LeftOf([], rest, k)) {
      MarkerIsOver(l, rest, k);
    } else {
      MarkerIsOver(l, rest, k - 1);
    }
  }

  /** The second loop, with the marker in front. */
  lemma Marked(l: Limits, rest: seq<Event>, k: nat) returns (m: nat)
    requires k <= Deltas(rest) && (k > 0 ==> Over(l, LeftOf([Marker(l)], rest, k - 1)))
    ensures k <= m <= Deltas(rest) && Trim(l, LeftOf([Marker(l)], rest, k)) == LeftOf([Marker(l)], rest, m)
    ensures Over(l, LeftOf([Marker(l)], rest, m)) <==> Over(l, LeftOf([Marker(l)], rest, Deltas(rest)))
    ensures m > 0 ==> Over(l, LeftOf([Marker(l)], rest, m - 1))
  {
    m := TrimGivesUpOldest(l, [Marker(l)], rest, k);
    if Over(l, LeftOf([Marker(l)], rest, Deltas(rest))) {
      FewerFits(l, [Marker(l)], rest, m, Deltas(rest));
    }
  }

  /** Truncating what already lacks something; `gone` is 1 if the buffer collapses. */
  lemma TruncatedHolds(l: Limits, rest: seq<Event>, k: nat, bytes: int) returns (gone: nat, k': nat)
    requires k <= Deltas(rest) && (k > 0 ==> Over(l, LeftOf([Marker(l)], rest, k - 1)))
    ensures Stands(l, rest, true, Truncate(l, Buffer(LeftOf([Marker(l)], rest, k), bytes, true)), gone, k')
  {
    k' := Marked(l, rest, k);
    if Over(l, LeftOf([Marker(l)], rest, k')) { return 1, 0; }
    gone := 0;
  }

  /** Truncating a whole log. */
  lemma UntruncatedHolds(l: Limits, rest: seq<Event>, bytes: int) returns (gone: nat, k': nat)
    ensures Stands(l, rest, false, Truncate(l, Buffer(rest, bytes, false)), gone, k')
  {
    if !Over(l, rest) {
      TrimStops(l, rest);
      assert LeftOf([], rest, 0) == rest;
      return 0, 0;
    }
    var n := Unmarked(l, rest);
    var trimmed := Trim(l, rest);
    if Over(l, trimmed) { return 1, 0; }
    assert [Marker(l)] + trimmed == LeftOf([Marker(l)], rest, n);
    k' := Marked(l, rest, n);
    if Over(l, LeftOf([Marker(l)], rest, k')) { return 1, 0; }
    gone := 0;
  }

  function AppendAll(l: Limits, b: Buffer, log: seq<Event>): Buffer {
    if log == [] then b else Append(l, AppendAll(l, b, log[..|log| - 1]), log[|log| - 1])
  }

  /** At event `j` the log since `from` did not fit any more. */
  ghost predicate CollapsesAt(l: Limits, log: seq<Event>, from: nat, j: nat)
    requires from <= j < |log|
  {
    FitsNowhere(l, log[from..j + 1], AppendAll(l, EMPTY, log[..j]).truncated)
  }

  /** Since `from`, where the log starts or the buffer last collapsed, there was no collapse. */
  ghost predicate LastCollapse(l: Limits, log: seq<Event>, from: nat)
    requires from <= |log|
  {
    && (from == 0 || AppendAll(l, EMPTY, log[..from]) == Collapsed(l))
    && forall j :: from <= j < |log| ==> !CollapsesAt(l, log, from, j)
  }

  lemma CollapsedAlready(l: Limits, log: seq<Event>, from: nat, j: nat, e: Event)
    requires from <= j < |log|
    ensures CollapsesAt(l, log + [e], from, j) == CollapsesAt(l, log, from, j)
  {
    assert (log + [e])[from..j + 1] == log[from..j + 1] && (log + [e])[..j] == log[..j];
  }

  lemma CollapsesLast(l: Limits, log: seq<Event>, from: nat, e: Event)
    requires from <= |log|
    ensures CollapsesAt(l, log + [e], from, |log|)
      == FitsNowhere(l, log[from..] + [e], AppendAll(l, EMPTY, log).truncated)
  {
    assert (log + [e])[from..|log| + 1] == log[from..] + [e] && (log + [e])[..|log|] == log;
  }

  lemma LastCollapseStays(l: Limits, log: seq<Event>, from: nat, e: Event)
    requires from <= |log| && LastCollapse(l, log, from)
    requires !FitsNowhere(l, log[from..] + [e], AppendAll(l, EMPTY, log).truncated)
    ensures LastCollapse(l, log + [e], from)
  {
    assert (log + [e])[..from] == log[..from];
    CollapsesLast(l, log, from, e);
    forall j | from <= j < |log| + 1 ensures !CollapsesAt(l, log + [e], from, j) {
      if j < |log| { CollapsedAlready(l, log, from, j, e); }
    }
  }

  lemma CollapseIsLast(l: Limits, log: seq<Event>)
    requires AppendAll(l, EMPTY, log) == Collapsed(l)
    ensures LastCollapse(l, log, |log|)
  {
    assert log[..|log|] == log;
  }

  lemma AppendAllStep(l: Limits, log: seq<Event>, e: Event)
    ensures AppendAll(l, EMPTY, log + [e]) == Append(l, AppendAll(l, EMPTY, log), e)
  {
    assert (log + [e])[..|log|] == log;
  }

  /** After any turn log: the byte count is right; the buffer is within both limits, or is the
      single marker; untruncated it is the whole log; truncated it is the marker followed by the
      log since the last collapse without its oldest text deltas, as few as possible. */
  lemma {:induction false} BufferAccounting(l: Limits, log: seq<Event>) returns (from: nat, k: nat)
    ensures from <= |log| && Holds(l, AppendAll(l, EMPTY, log), log, from, k)
    ensures !AppendAll(l, EMPTY, log).truncated ==> AppendAll(l, EMPTY, log).events == log
    ensures LastCollapse(l, log, from)
  {
    if log == [] {
      return 0, 0;
    }
    var before, e := log[..|log| - 1], log[|log| - 1];
    assert log == before + [e] && log[0..] == log;
    var f, i := BufferAccounting(l, before);
    var b := AppendAll(l, EMPTY, before);
    AppendAllStep(l, before, e);
    from, k := AppendHolds(l, b, before, f, i, e);
    if FitsNowhere(l, before[f..] + [e], b.truncated) {
      CollapseIsLast(l, log);
    } else {
      LastCollapseStays(l, before, f, e);
    }
  }
}
