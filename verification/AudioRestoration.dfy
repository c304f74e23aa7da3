/**
 * After an operation the protected clips of the independent audio tracks are put back.
 */
module AudioRestoration {
  import opened Basics
  import opened IndependentAudio
  import opened Sorting

  // ---------------------------------------------------------------- counting

  function Count(clips: seq<Clip>, id: string): nat {
    if clips == [] then 0 else (if clips[0].id == id then 1 else 0) + Count(clips[1..], id)
  }

  function AllClips(tracks: seq<Track>): seq<Clip> {
    if tracks == [] then [] else AllClips(tracks[..|tracks| - 1]) + tracks[|tracks| - 1].clips
  }

  lemma {:induction false} CountAppend(a: seq<Clip>, b: seq<Clip>, id: string)
    ensures Count(a + b, id) == Count(a, id) + Count(b, id)
  {
    if a == [] {
      assert a + b == b;
    } else {
      assert (a + b)[1..] == a[1..] + b;
      CountAppend(a[1..], b, id);
    }
  }

  lemma {:induction false} CountZero(clips: seq<Clip>, id: string)
    ensures Count(clips, id) == 0 <==> forall c :: c in clips ==> c.id != id
  {
    if clips != [] {
      CountZero(clips[1..], id);
      assert forall c :: c in clips <==> c == clips[0] || c in clips[1..];
    }
  }

  /** With distinct ids every id that occurs does so once. */
  lemma {:induction false} CountOne(clips: seq<Clip>, c: Clip)
    requires c in clips && forall i, j :: 0 <= i < j < |clips| ==> clips[i].id != clips[j].id
    ensures Count(clips, c.id) == 1
  {
    if clips[0].id == c.id {
      CountZero(clips[1..], c.id);
      forall d | d in clips[1..] ensures d.id != c.id {
        var j :| 0 <= j < |clips[1..]| && clips[1..][j] == d;
        assert clips[j + 1] == d;
      }
    } else {
      CountOne(clips[1..], c);
    }
  }

  lemma {:induction false} CountInsert(x: Clip, s: seq<Clip>, id: string)
    ensures Count(Insert(x, s, ClipBefore), id) == Count([x] + s, id)
  {
    assert ([x] + s)[1..] == s;
    if s != [] && ClipBefore(s[0], x) {
      CountInsert(x, s[1..], id);
      var rest := Insert(x, s[1..], ClipBefore);
      assert ([s[0]] + rest)[1..] == rest && ([x] + s[1..])[1..] == s[1..];
    }
  }

  lemma {:induction false} CountSort(s: seq<Clip>, id: string)
    ensures Count(StableSort(s, ClipBefore), id) == Count(s, id)
  {
    if s != [] {
      CountSort(s[1..], id);
      CountInsert(s[0], StableSort(s[1..], ClipBefore), id);
      assert ([s[0]] + StableSort(s[1..], ClipBefore))[1..] == StableSort(s[1..], ClipBefore);
    }
  }

  // ---------------------------------------------------------------- restoring one track

  predicate ClipBefore(a: Clip, b: Clip) {
    if a.start == b.start then StringLess(a.id, b.id) else a.start < b.start
  }

  function Ids(clips: seq<Clip>): set<string> { set i | 0 <= i < |clips| :: clips[i].id }

  /** The clip descends from one of the protected clips. */
  predicate Descends(c: Clip, ids: set<string>, prefix: string) {
    Lineage(c, prefix).Some? && Lineage(c, prefix).value in ids
  }

  function Kept(clips: seq<Clip>, ids: set<string>, prefix: string): seq<Clip> {
    if clips == [] then []
    else
      var before := Kept(clips[..|clips| - 1], ids, prefix);
      if Descends(clips[|clips| - 1], ids, prefix) then before else before + [clips[|clips| - 1]]
  }

  /** The last track with that id. */
  function TrackById(tracks: seq<Track>, id: string): Option<Track> {
    if tracks == [] then None
    else if tracks[|tracks| - 1].id == id then Some(tracks[|tracks| - 1])
    else TrackById(tracks[..|tracks| - 1], id)
  }

  /** All clips of the current track are protected: the snapshot is put back as it is. */
  predicate FullyProtected(current: seq<Track>, snapshot: Track, id: string) {
    TrackById(current, id).Some? && TrackById(current, id).value.clips == snapshot.clips
  }

  function Restored(t: Track, current: seq<Track>, preserved: map<string, Track>, prefix: string): Track {
    if t.id !in preserved then t
    else
      var snapshot := preserved[t.id];
      if FullyProtected(current, snapshot, t.id) then snapshot
      else t.(clips := StableSort(Kept(t.clips, Ids(snapshot.clips), prefix) + snapshot.clips, ClipBefore),
              mix := snapshot.mix)
  }

  // ---------------------------------------------------------------- conflicts

  predicate Protected(preserved: map<string, Track>, id: string) {
    exists k :: k in preserved && id in Ids(preserved[k].clips)
  }

  /** A clip that has a protected id without descending from that clip. */
  predicate Impostor(c: Clip, preserved: map<string, Track>, prefix: string) {
    Protected(preserved, c.id) && Lineage(c, prefix) != Some(c.id)
  }

  /** A protected id that belongs to an impostor, or to two clips. */
  ghost predicate Conflict(tracks: seq<Track>, preserved: map<string, Track>, prefix: string, id: string) {
    || (exists c :: c in AllClips(tracks) && c.id == id && Impostor(c, preserved, prefix))
    || (Protected(preserved, id) && Count(AllClips(tracks), id) > 1)
  }

  function CountOf(counts: map<string, nat>, id: string): nat { if id in counts then counts[id] else 0 }

  /** The two checks of restoreIndependentAudioTracks. */
  method FindConflict(tracks: seq<Track>, preserved: map<string, Track>, prefix: string) returns (conflict: Option<string>)
    ensures conflict.Some? ==> Conflict(tracks, preserved, prefix, conflict.value)
    ensures conflict.None? ==> forall id :: !Conflict(tracks, preserved, prefix, id)
  {
    var clips := AllClips(tracks);
    var counts: map<string, nat> := map[];
    for i := 0 to |clips|
      invariant forall c :: c in clips[..i] ==> !Impostor(c, preserved, prefix)
      invariant forall id :: CountOf(counts, id) == if Protected(preserved, id) then Count(clips[..i], id) else 0
    {
      var c := clips[i];
      assert clips[..i + 1] == clips[..i] + [c];
      forall id ensures Count(clips[..i + 1], id) == Count(clips[..i], id) + if c.id == id then 1 else 0 {
        CountAppend(clips[..i], [c], id);
      }
      if Protected(preserved, c.id) {
        if Lineage(c, prefix) != Some(c.id) {
          assert Impostor(c, preserved, prefix);
          return Some(c.id);
        }
        counts := counts[c.id := CountOf(counts, c.id) + 1];
      }
    }
    assert clips[..|clips|] == clips;
    var rest := counts.Keys;
    while rest != {}
      invariant rest <= counts.Keys && forall id :: id in counts && id !in rest ==> counts[id] <= 1
      decreases |rest|
    {
      var id :| id in rest;
      rest := rest - {id};
      if counts[id] > 1 {
        assert CountOf(counts, id) > 1;
        return Some(id);
      }
    }
    conflict := None;
    forall id ensures !Conflict(tracks, preserved, prefix, id) {
      assert CountOf(counts, id) <= 1;
    }
  }

  /** Fails on a conflict and changes nothing then; otherwise every track is restored. */
  method RestoreIndependentAudioTracks(document: TimelineDocument, current: seq<Track>, preserved: map<string, Track>,
                                       prefix: string)
    returns (conflict: Option<string>)
    modifies document
    ensures conflict.Some? <==> exists id :: Conflict(old(document.tracks), preserved, prefix, id)
    ensures conflict.Some? ==> document.tracks == old(document.tracks)
    ensures conflict.None? ==> document.tracks == RestoredAll(old(document.tracks), current, preserved, prefix)
  {
    conflict := FindConflict(document.tracks, preserved, prefix);
    if conflict.Some? {
      return;
    }
    RestoreAllTracks(document, current, preserved, prefix);
  }

  /** The loop over the tracks of the document. */
  method RestoreAllTracks(document: TimelineDocument, current: seq<Track>, preserved: map<string, Track>, prefix: string)
    modifies document
    ensures document.tracks == RestoredAll(old(document.tracks), current, preserved, prefix)
  {
    ghost var before := document.tracks;
    for i := 0 to |document.tracks|
      invariant |document.tracks| == |before|
      invariant forall k :: 0 <= k < |before| ==>
        document.tracks[k] == if k < i then Restored(before[k], current, preserved, prefix) else before[k]
    {
      var restored := RestoreTrack(document.tracks[i], current, preserved, prefix);
      document.tracks := document.tracks[i := restored];
    }
  }

  function RestoredAll(tracks: seq<Track>, current: seq<Track>, preserved: map<string, Track>, prefix: string)
    : (r: seq<Track>)
    ensures |r| == |tracks| && forall i :: 0 <= i < |r| ==> r[i] == Restored(tracks[i], current, preserved, prefix)
  {
    if tracks == [] then []
    else RestoredAll(tracks[..|tracks| - 1], current, preserved, prefix)
         + [Restored(tracks[|tracks| - 1], current, preserved, prefix)]
  }

  /** One pass of the loop over the tracks. */
  method RestoreTrack(t: Track, current: seq<Track>, preserved: map<string, Track>, prefix: string) returns (r: Track)
    ensures r == Restored(t, current, preserved, prefix)
  {
    if t.id !in preserved {
      return t;
    }
    var snapshot := preserved[t.id];
    if FullyProtected(current, snapshot, t.id) {
      return snapshot;
    }
    var kept := [];
    for i := 0 to |t.clips|
      invariant kept == Kept(t.clips[..i], Ids(snapshot.clips), prefix)
    {
      assert t.clips[..i + 1][..i] == t.clips[..i];
      if Descends(t.clips[i], Ids(snapshot.clips), prefix) {
        continue;
      }
      kept := kept + [t.clips[i]];
    }
    assert t.clips[..|t.clips|] == t.clips;
    r := t.(clips := StableSort(kept + snapshot.clips, ClipBefore), mix := snapshot.mix);
  }

  // ---------------------------------------------------------------- every protected clip, exactly once

  /** No id is protected twice. */
  ghost predicate UniqueIds(preserved: map<string, Track>) {
    && (forall k, i, j :: k in preserved && 0 <= i < j < |preserved[k].clips| ==>
          preserved[k].clips[i].id != preserved[k].clips[j].id)
    && (forall k, l :: k in preserved && l in preserved && k != l ==> Ids(preserved[k].clips) !! Ids(preserved[l].clips))
  }

  /** Only the clip itself and what descends from it carry the id. */
  predicate OwnLineage(clips: seq<Clip>, prefix: string, id: string) {
    forall c :: c in clips && c.id == id ==> Lineage(c, prefix) == Some(id)
  }

  lemma {:induction false} KeptCount(clips: seq<Clip>, ids: set<string>, prefix: string, id: string)
    requires OwnLineage(clips, prefix, id)
    ensures Count(Kept(clips, ids, prefix), id) == if id in ids then 0 else Count(clips, id)
  {
    if clips != [] {
      var n := |clips| - 1;
      KeptCount(clips[..n], ids, prefix, id);
      assert clips == clips[..n] + [clips[n]] && clips[n] in clips;
      CountAppend(clips[..n], [clips[n]], id);
      CountAppend(Kept(clips[..n], ids, prefix), [clips[n]], id);
    }
  }

  /** The track is replaced by its snapshot as a whole. */
  predicate Replaced(t: Track, current: seq<Track>, preserved: map<string, Track>) {
    t.id in preserved && FullyProtected(current, preserved[t.id], t.id)
  }

  /** How often an id protected on track `home` occurs on a restored track. */
  lemma RestoredCount(t: Track, current: seq<Track>, preserved: map<string, Track>, prefix: string, home: string, c: Clip)
    requires UniqueIds(preserved) && home in preserved && c in preserved[home].clips && OwnLineage(t.clips, prefix, c.id)
    ensures Count(Restored(t, current, preserved, prefix).clips, c.id) ==
      if t.id == home then 1 else if Replaced(t, current, preserved) then 0 else Count(t.clips, c.id)
  {
    var i :| 0 <= i < |preserved[home].clips| && preserved[home].clips[i] == c;
    assert c.id in Ids(preserved[home].clips);
    if t.id in preserved {
      var snapshot := preserved[t.id];
      var ids := Ids(snapshot.clips);
      assert t.id == home <==> c.id in ids;
      if t.id == home {
        CountOne(snapshot.clips, c);
      } else {
        CountZero(snapshot.clips, c.id);
        forall d | d in snapshot.clips ensures d.id != c.id {
          assert d.id in ids;
        }
      }
      var kept := Kept(t.clips, ids, prefix);
      KeptCount(t.clips, ids, prefix, c.id);
      CountAppend(kept, snapshot.clips, c.id);
      CountSort(kept + snapshot.clips, c.id);
    }
  }

  function Occurrences(tracks: seq<Track>, id: string): nat {
    if tracks == [] then 0 else Occurrences(tracks[..|tracks| - 1], id) + if tracks[|tracks| - 1].id == id then 1 else 0
  }

  /** Copies of the clip on other tracks that are not replaced as a whole. */
  function Strays(tracks: seq<Track>, current: seq<Track>, preserved: map<string, Track>, home: string, id: string): nat {
    if tracks == [] then 0
    else
      var t := tracks[|tracks| - 1];
      Strays(tracks[..|tracks| - 1], current, preserved, home, id)
        + if t.id == home || Replaced(t, current, preserved) then 0 else Count(t.clips, id)
  }

  lemma {:induction false} RestoredCountAll(tracks: seq<Track>, current: seq<Track>, preserved: map<string, Track>,
                                            prefix: string, home: string, c: Clip)
    requires UniqueIds(preserved) && home in preserved && c in preserved[home].clips
    requires OwnLineage(AllClips(tracks), prefix, c.id)
    ensures Count(AllClips(RestoredAll(tracks, current, preserved, prefix)), c.id) ==
      Occurrences(tracks, home) + Strays(tracks, current, preserved, home, c.id)
  {
    if tracks != [] {
      var n := |tracks| - 1;
      var before, t := tracks[..n], tracks[n];
      RestoredCountAll(before, current, preserved, prefix, home, c);
      RestoredCount(t, current, preserved, prefix, home, c);
      var done := RestoredAll(before, current, preserved, prefix);
      var all := RestoredAll(tracks, current, preserved, prefix);
      assert all[..n] == done;
      CountAppend(AllClips(done), all[n].clips, c.id);
    }
  }

  /** No copy of the clip has got onto another track that keeps it. */
  predicate StaysHome(tracks: seq<Track>, current: seq<Track>, preserved: map<string, Track>, home: string, id: string) {
    forall t :: t in tracks && t.id != home && !Replaced(t, current, preserved) ==> forall c :: c in t.clips ==> c.id != id
  }

  lemma {:induction false} NoStrays(tracks: seq<Track>, current: seq<Track>, preserved: map<string, Track>,
                                    home: string, id: string)
    ensures Strays(tracks, current, preserved, home, id) == 0 <==> StaysHome(tracks, current, preserved, home, id)
  {
    if tracks != [] {
      var n := |tracks| - 1;
      NoStrays(tracks[..n], current, preserved, home, id);
      CountZero(tracks[n].clips, id);
      assert forall t :: t in tracks <==> t in tracks[..n] || t == tracks[n];
    }
  }

  lemma {:induction false} HomeOccurs(tracks: seq<Track>, home: string)
    ensures Occurrences(tracks, home) > 0 <==> exists h :: 0 <= h < |tracks| && tracks[h].id == home
  {
    if tracks != [] {
      HomeOccurs(tracks[..|tracks| - 1], home);
      assert tracks[|tracks| - 1].id == home || forall h :: 0 <= h < |tracks| && tracks[h].id == home ==>
        h < |tracks| - 1 && tracks[..|tracks| - 1][h] == tracks[h];
    }
  }

  /** A restored track of that id holds the clip. */
  ghost predicate IsHome(tracks: seq<Track>, restored: seq<Track>, home: string, c: Clip) {
    |restored| == |tracks| && exists h :: 0 <= h < |tracks| && tracks[h].id == home && c in restored[h].clips
  }

  lemma ProtectedIsBack(t: Track, current: seq<Track>, preserved: map<string, Track>, prefix: string, c: Clip)
    requires t.id in preserved && c in preserved[t.id].clips
    ensures c in Restored(t, current, preserved, prefix).clips
  {
    SortKeepsElements(Kept(t.clips, Ids(preserved[t.id].clips), prefix) + preserved[t.id].clips, ClipBefore);
  }

  /** Without a conflict, a protected clip is on every track with the id of its own afterwards, as
      in the snapshot; and of any document it is there, and nowhere else, and only once, exactly if
      the document has its track once and no copy has got onto another track that keeps it. */
  lemma ProtectedExactlyOnce(tracks: seq<Track>, current: seq<Track>, preserved: map<string, Track>, prefix: string,
                             home: string, c: Clip)
    requires UniqueIds(preserved) && home in preserved && c in preserved[home].clips
    requires forall id :: !Conflict(tracks, preserved, prefix, id)
    ensures var restored := RestoredAll(tracks, current, preserved, prefix);
      && (forall h :: 0 <= h < |tracks| && tracks[h].id == home ==> c in restored[h].clips)
      && (Count(AllClips(restored), c.id) == 1 && IsHome(tracks, restored, home, c)
          <==> Occurrences(tracks, home) == 1 && StaysHome(tracks, current, preserved, home, c.id))
  {
    var i :| 0 <= i < |preserved[home].clips| && preserved[home].clips[i] == c;
    assert c.id in Ids(preserved[home].clips) && Protected(preserved, c.id);
    forall d | d in AllClips(tracks) && d.id == c.id ensures Lineage(d, prefix) == Some(c.id) {
      assert !Conflict(tracks, preserved, prefix, d.id);
      assert !Impostor(d, preserved, prefix);
    }
    RestoredCountAll(tracks, current, preserved, prefix, home, c);
    NoStrays(tracks, current, preserved, home, c.id);
    HomeOccurs(tracks, home);
    forall h | 0 <= h < |tracks| && tracks[h].id == home
      ensures c in RestoredAll(tracks, current, preserved, prefix)[h].clips
    {
      ProtectedIsBack(tracks[h], current, preserved, prefix, c);
    }
  }

  lemma {:induction false} KeptAre(clips: seq<Clip>, ids: set<string>, prefix: string, c: Clip)
    ensures multiset(Kept(clips, ids, prefix))[c] == if Descends(c, ids, prefix) then 0 else multiset(clips)[c]
  {
    if clips != [] {
      var n := |clips| - 1;
      KeptAre(clips[..n], ids, prefix, c);
      assert clips == clips[..n] + [clips[n]];
    }
  }

  lemma StringBefore()
    ensures WeakOrder(ClipBefore)
  {
    forall a, b | ClipBefore(a, b) ensures !ClipBefore(b, a) {
      StringLessTotal(a.id, b.id);
    }
    forall a, b, c | !ClipBefore(b, a) && !ClipBefore(c, b) ensures !ClipBefore(c, a) {
      if a.start == b.start == c.start { NotLessTransitive(a.id, b.id, c.id); }
    }
  }

  lemma NotLessTransitive(a: string, b: string, c: string)
    requires !StringLess(b, a) && !StringLess(c, b)
    ensures !StringLess(c, a)
  {
    StringLessTotal(a, b);
    StringLessTotal(b, c);
    StringLessTotal(a, c);
    if a != b && b != c { StringLessTransitive(a, b, c); }
  }

  /** A partly protected track ends up with the snapshot's clips and every clip that does not
      descend from a protected one, as often as it was there, in timeline order. */
  lemma UnrelatedClipsSurvive(t: Track, current: seq<Track>, preserved: map<string, Track>, prefix: string, c: Clip)
    requires t.id in preserved && !Replaced(t, current, preserved)
    ensures var r, snapshot := Restored(t, current, preserved, prefix), preserved[t.id];
      && multiset(r.clips)[c] == multiset(snapshot.clips)[c]
           + (if Descends(c, Ids(snapshot.clips), prefix) then 0 else multiset(t.clips)[c])
      && Sorted(r.clips, ClipBefore) && r.mix == snapshot.mix
  {
    var snapshot := preserved[t.id];
    KeptAre(t.clips, Ids(snapshot.clips), prefix, c);
    StringBefore();
    SortSorts(Kept(t.clips, Ids(snapshot.clips), prefix) + snapshot.clips, ClipBefore);
  }

  // ---------------------------------------------------------------- what is protected

  /** The operation leaves the clip alone. */
  predicate Untouched(c: Clip, trackChanged: bool, touchedClips: set<string>) {
    !c.linked && !(trackChanged && c.id in touchedClips)
  }

  function UntouchedOnes(clips: seq<Clip>, trackChanged: bool, touchedClips: set<string>): seq<Clip> {
    if clips == [] then []
    else
      var before := UntouchedOnes(clips[..|clips| - 1], trackChanged, touchedClips);
      if Untouched(clips[|clips| - 1], trackChanged, touchedClips) then before + [clips[|clips| - 1]] else before
  }

  function Snapshots(tracks: seq<Track>, touchedTracks: set<string>, touchedClips: set<string>): map<string, Track> {
    if tracks == [] then map[]
    else
      var t := tracks[|tracks| - 1];
      var before := Snapshots(tracks[..|tracks| - 1], touchedTracks, touchedClips);
      var clips := UntouchedOnes(t.clips, t.id in touchedTracks, touchedClips);
      if !IsIndependent(t.id) || (t.id in touchedTracks && touchedClips == {}) || clips == [] then before
      else before[t.id := t.(clips := clips)]
  }

  method PreserveIndependentAudio(tracks: seq<Track>, touchedTracks: set<string>, touchedClips: set<string>)
    returns (preserved: map<string, Track>)
    ensures preserved == Snapshots(tracks, touchedTracks, touchedClips)
  {
    preserved := map[];
    for i := 0 to |tracks|
      invariant preserved == Snapshots(tracks[..i], touchedTracks, touchedClips)
    {
      var t := tracks[i];
      assert tracks[..i + 1][..i] == tracks[..i];
      if !IsIndependent(t.id) {
        continue;
      }
      var trackChanged := t.id in touchedTracks;
      if trackChanged && |touchedClips| == 0 {
        continue;
      }
      var clips := [];
      for j := 0 to |t.clips|
        invariant clips == UntouchedOnes(t.clips[..j], trackChanged, touchedClips)
      {
        assert t.clips[..j + 1][..j] == t.clips[..j];
        if Untouched(t.clips[j], trackChanged, touchedClips) {
          clips := clips + [t.clips[j]];
        }
      }
      assert t.clips[..|t.clips|] == t.clips;
      if |clips| > 0 {
        preserved := preserved[t.id := t.(clips := clips)];
      }
    }
    assert tracks[..|tracks|] == tracks;
  }

  lemma {:induction false} UntouchedAre(clips: seq<Clip>, trackChanged: bool, touchedClips: set<string>)
    requires forall i, j :: 0 <= i < j < |clips| ==> clips[i].id != clips[j].id
    ensures var r := UntouchedOnes(clips, trackChanged, touchedClips);
      && (forall i, j :: 0 <= i < j < |r| ==> r[i].id != r[j].id)
      && forall c :: c in r <==> c in clips && Untouched(c, trackChanged, touchedClips)
  {
    if clips != [] {
      var n := |clips| - 1;
      UntouchedAre(clips[..n], trackChanged, touchedClips);
      var before := UntouchedOnes(clips[..n], trackChanged, touchedClips);
      forall i | 0 <= i < |before| ensures before[i].id != clips[n].id {
        assert before[i] in before;
        var k :| 0 <= k < n && clips[k] == before[i];
      }
    }
  }

  /** Every snapshot is made of the untouched clips of its track. */
  ghost predicate SnapshotOf(s: Track, t: Track, touchedTracks: set<string>, touchedClips: set<string>) {
    s == t.(clips := UntouchedOnes(t.clips, t.id in touchedTracks, touchedClips)) && s.clips != []
  }

  ghost predicate Home(tracks: seq<Track>, touchedTracks: set<string>, touchedClips: set<string>, k: string, i: int)
    requires k in Snapshots(tracks, touchedTracks, touchedClips)
  {
    && 0 <= i < |tracks| && tracks[i].id == k
    && SnapshotOf(Snapshots(tracks, touchedTracks, touchedClips)[k], tracks[i], touchedTracks, touchedClips)
  }

  lemma {:induction false} SnapshotsAre(tracks: seq<Track>, touchedTracks: set<string>, touchedClips: set<string>,
                                        k: string)
    requires k in Snapshots(tracks, touchedTracks, touchedClips)
    ensures IsIndependent(k)
    ensures exists i :: Home(tracks, touchedTracks, touchedClips, k, i)
  {
    var n := |tracks| - 1;
    var t := tracks[n];
    var clips := UntouchedOnes(t.clips, t.id in touchedTracks, touchedClips);
    if IsIndependent(t.id) && !(t.id in touchedTracks && touchedClips == {}) && clips != [] && k == t.id {
      assert Home(tracks, touchedTracks, touchedClips, k, n);
    } else {
      SnapshotsAre(tracks[..n], touchedTracks, touchedClips, k);
      var i :| Home(tracks[..n], touchedTracks, touchedClips, k, i);
      assert tracks[i] == tracks[..n][i];
      assert Home(tracks, touchedTracks, touchedClips, k, i);
    }
  }

  /** In a document with distinct clip ids no id is protected twice. */
  lemma PreservedIdsAreUnique(tracks: seq<Track>, touchedTracks: set<string>, touchedClips: set<string>)
    requires DistinctIds(tracks)
    ensures UniqueIds(Snapshots(tracks, touchedTracks, touchedClips))
  {
    var preserved := Snapshots(tracks, touchedTracks, touchedClips);
    forall k | k in preserved
      ensures forall i, j :: 0 <= i < j < |preserved[k].clips| ==> preserved[k].clips[i].id != preserved[k].clips[j].id
    {
      var s := HomeOf(tracks, touchedTracks, touchedClips, k);
    }
    forall k, l | k in preserved && l in preserved && k != l
      ensures Ids(preserved[k].clips) !! Ids(preserved[l].clips)
    {
      var s := HomeOf(tracks, touchedTracks, touchedClips, k);
      var r := HomeOf(tracks, touchedTracks, touchedClips, l);
      forall x | x in Ids(preserved[k].clips) ensures x !in Ids(preserved[l].clips) {
        assert forall i, j :: 0 <= i < |tracks[s].clips| && 0 <= j < |tracks[r].clips| ==>
          tracks[s].clips[i].id != tracks[r].clips[j].id;
      }
    }
  }

  lemma HomeOf(tracks: seq<Track>, touchedTracks: set<string>, touchedClips: set<string>, k: string) returns (s: nat)
    requires DistinctIds(tracks) && k in Snapshots(tracks, touchedTracks, touchedClips)
    ensures s < |tracks| && tracks[s].id == k
    ensures var clips := Snapshots(tracks, touchedTracks, touchedClips)[k].clips;
      && (forall i, j :: 0 <= i < j < |clips| ==> clips[i].id != clips[j].id)
      && (forall i :: 0 <= i < |clips| ==> exists j :: 0 <= j < |tracks[s].clips| && tracks[s].clips[j] == clips[i])
  {
    SnapshotsAre(tracks, touchedTracks, touchedClips, k);
    s :| Home(tracks, touchedTracks, touchedClips, k, s);
    UntouchedAre(tracks[s].clips, tracks[s].id in touchedTracks, touchedClips);
    var clips := Snapshots(tracks, touchedTracks, touchedClips)[k].clips;
    forall i | 0 <= i < |clips| ensures exists j :: 0 <= j < |tracks[s].clips| && tracks[s].clips[j] == clips[i] {
      assert clips[i] in clips;
    }
  }

  // ---------------------------------------------------------------- what restoration amounts to

  /** The operation leaves every clip of the current track alone. */
  predicate LeftAlone(current: seq<Track>, id: string, touchedTracks: set<string>, touchedClips: set<string>) {
    && TrackById(current, id).Some? && TrackById(current, id).value.clips != []
    && forall c :: c in TrackById(current, id).value.clips ==>
         !c.linked && !(id in touchedTracks && c.id in touchedClips)
  }

  lemma {:induction false} AllUntouched(clips: seq<Clip>, trackChanged: bool, touchedClips: set<string>)
    ensures UntouchedOnes(clips, trackChanged, touchedClips) == clips
      <==> forall c :: c in clips ==> !c.linked && !(trackChanged && c.id in touchedClips)
    ensures |UntouchedOnes(clips, trackChanged, touchedClips)| <= |clips|
  {
    if clips != [] {
      var n := |clips| - 1;
      AllUntouched(clips[..n], trackChanged, touchedClips);
      var before := UntouchedOnes(clips[..n], trackChanged, touchedClips);
      assert clips == clips[..n] + [clips[n]] && clips[n] in clips;
      assert forall c :: c in clips ==> c in clips[..n] || c == clips[n];
      if Untouched(clips[n], trackChanged, touchedClips) {
        assert (before + [clips[n]])[..|before|] == before;
      }
    }
  }

  lemma {:induction false} TrackByIdIs(tracks: seq<Track>, id: string) returns (i: nat)
    requires TrackById(tracks, id).Some?
    ensures i < |tracks| && tracks[i].id == id && TrackById(tracks, id) == Some(tracks[i])
    ensures forall j :: i < j < |tracks| ==> tracks[j].id != id
  {
    var n := |tracks| - 1;
    if tracks[n].id == id {
      i := n;
    } else {
      i := TrackByIdIs(tracks[..n], id);
    }
  }

  lemma {:induction false} TrackByIdFinds(tracks: seq<Track>, id: string, i: nat)
    requires i < |tracks| && tracks[i].id == id
    ensures TrackById(tracks, id).Some?
  {
    if tracks[|tracks| - 1].id != id {
      TrackByIdFinds(tracks[..|tracks| - 1], id, i);
    }
  }

  /** A track of which something is protected is protected as a whole exactly if the operation
      leaves all its clips alone. */
  lemma ProtectedAsAWhole(current: seq<Track>, touchedTracks: set<string>, touchedClips: set<string>, id: string)
    requires DistinctIds(current) && id in Snapshots(current, touchedTracks, touchedClips)
    ensures FullyProtected(current, Snapshots(current, touchedTracks, touchedClips)[id], id)
      <==> LeftAlone(current, id, touchedTracks, touchedClips)
    ensures LeftAlone(current, id, touchedTracks, touchedClips) ==>
      TrackById(current, id) == Some(Snapshots(current, touchedTracks, touchedClips)[id])
  {
    var i, h := LastAndHome(current, touchedTracks, touchedClips, id);
    AllUntouched(current[i].clips, id in touchedTracks, touchedClips);
    if LeftAlone(current, id, touchedTracks, touchedClips) {
      SnapshotNeedsClips(current, touchedTracks, touchedClips, id);
      LastIsProtected(current, touchedTracks, touchedClips, i);
    } else if h != i && current[i].clips != [] {
      NothingInCommon(current, touchedTracks, touchedClips, id, h, i);
    }
  }

  lemma LastAndHome(current: seq<Track>, touchedTracks: set<string>, touchedClips: set<string>, id: string)
    returns (i: nat, h: nat)
    requires id in Snapshots(current, touchedTracks, touchedClips)
    ensures IsIndependent(id) && Home(current, touchedTracks, touchedClips, id, h)
    ensures i < |current| && current[i].id == id && TrackById(current, id) == Some(current[i])
    ensures forall j :: i < j < |current| ==> current[j].id != id
  {
    SnapshotsAre(current, touchedTracks, touchedClips, id);
    h :| Home(current, touchedTracks, touchedClips, id, h);
    TrackByIdFinds(current, id, h);
    i := TrackByIdIs(current, id);
  }

  lemma NothingInCommon(current: seq<Track>, touchedTracks: set<string>, touchedClips: set<string>, id: string, h: nat, i: nat)
    requires DistinctIds(current) && id in Snapshots(current, touchedTracks, touchedClips)
    requires Home(current, touchedTracks, touchedClips, id, h) && i < |current| && h != i && current[i].clips != []
    ensures Snapshots(current, touchedTracks, touchedClips)[id].clips != current[i].clips
  {
    var clips := Snapshots(current, touchedTracks, touchedClips)[id].clips;
    assert DistinctClips(current[h].clips);
    UntouchedAre(current[h].clips, id in touchedTracks, touchedClips);
    assert clips[0] in clips;
    var j :| 0 <= j < |current[h].clips| && current[h].clips[j] == clips[0];
    assert current[i].clips[0].id != clips[0].id;
  }

  ghost predicate DistinctClips(clips: seq<Clip>) { forall i, j :: 0 <= i < j < |clips| ==> clips[i].id != clips[j].id }

  /** The last track of an id is the one that is protected, if anything of it is. */
  lemma {:induction false} LastIsProtected(tracks: seq<Track>, touchedTracks: set<string>, touchedClips: set<string>, i: nat)
    requires i < |tracks| && forall j :: i < j < |tracks| ==> tracks[j].id != tracks[i].id
    requires IsIndependent(tracks[i].id) && !(tracks[i].id in touchedTracks && touchedClips == {})
    requires UntouchedOnes(tracks[i].clips, tracks[i].id in touchedTracks, touchedClips) != []
    ensures tracks[i].id in Snapshots(tracks, touchedTracks, touchedClips)
    ensures Snapshots(tracks, touchedTracks, touchedClips)[tracks[i].id]
      == tracks[i].(clips := UntouchedOnes(tracks[i].clips, tracks[i].id in touchedTracks, touchedClips))
  {
    if i < |tracks| - 1 {
      LastIsProtected(tracks[..|tracks| - 1], touchedTracks, touchedClips, i);
    }
  }

  /** Which clips are protected: of the independent tracks, if ids of tracks do not repeat, exactly
      the unlinked clips that the operation does not name on a track that it changes; of a track
      that it changes without naming a clip, none. */
  lemma ProtectedExactly(tracks: seq<Track>, touchedTracks: set<string>, touchedClips: set<string>, i: nat, c: Clip)
    requires DistinctIds(tracks) && i < |tracks| && forall j :: 0 <= j < |tracks| && j != i ==> tracks[j].id != tracks[i].id
    ensures (var preserved := Snapshots(tracks, touchedTracks, touchedClips);
        tracks[i].id in preserved && c in preserved[tracks[i].id].clips) <==>
      && (tracks[i].id == "bgm" || tracks[i].id == "sfx") && c in tracks[i].clips && !c.linked
      && (tracks[i].id in touchedTracks ==> touchedClips != {} && c.id !in touchedClips)
    ensures var preserved := Snapshots(tracks, touchedTracks, touchedClips);
      tracks[i].id in preserved ==> preserved[tracks[i].id] == tracks[i].(clips := preserved[tracks[i].id].clips)
  {
    var id := tracks[i].id;
    var untouched := UntouchedOnes(tracks[i].clips, id in touchedTracks, touchedClips);
    assert DistinctClips(tracks[i].clips);
    UntouchedAre(tracks[i].clips, id in touchedTracks, touchedClips);
    if id in Snapshots(tracks, touchedTracks, touchedClips) {
      SnapshotsAre(tracks, touchedTracks, touchedClips, id);
      var h :| Home(tracks, touchedTracks, touchedClips, id, h);
      assert h == i;
      SnapshotNeedsClips(tracks, touchedTracks, touchedClips, id);
    }
    if IsIndependent(id) && !(id in touchedTracks && touchedClips == {}) && untouched != [] {
      LastIsProtected(tracks, touchedTracks, touchedClips, i);
    }
  }

  lemma {:induction false} SnapshotNeedsClips(tracks: seq<Track>, touchedTracks: set<string>, touchedClips: set<string>, k: string)
    requires k in Snapshots(tracks, touchedTracks, touchedClips)
    ensures !(k in touchedTracks && touchedClips == {})
  {
    var n := |tracks| - 1;
    var t := tracks[n];
    var clips := UntouchedOnes(t.clips, t.id in touchedTracks, touchedClips);
    if !(IsIndependent(t.id) && !(t.id in touchedTracks && touchedClips == {}) && clips != [] && k == t.id) {
      SnapshotNeedsClips(tracks[..n], touchedTracks, touchedClips, k);
    }
  }

  /** The clip descends from none of the protected clips of the track. */
  predicate Unrelated(c: Clip, snapshot: Track, prefix: string) {
    forall s :: s in snapshot.clips ==> Lineage(c, prefix) != Some(s.id)
  }

  lemma UnrelatedIs(c: Clip, snapshot: Track, prefix: string)
    ensures Unrelated(c, snapshot, prefix) <==> !Descends(c, Ids(snapshot.clips), prefix)
  {
    if Descends(c, Ids(snapshot.clips), prefix) {
      var i :| 0 <= i < |snapshot.clips| && snapshot.clips[i].id == Lineage(c, prefix).value;
      assert snapshot.clips[i] in snapshot.clips;
    } else {
      forall s | s in snapshot.clips ensures Lineage(c, prefix) != Some(s.id) {
        var i :| 0 <= i < |snapshot.clips| && snapshot.clips[i] == s;
        assert s.id in Ids(snapshot.clips);
      }
    }
  }

  /** Clips that begin earlier come first; of those that begin together, the lesser id. */
  ghost predicate InTime(clips: seq<Clip>) {
    forall i, j :: 0 <= i < j < |clips| ==>
      clips[i].start < clips[j].start || (clips[i].start == clips[j].start && !StringLess(clips[j].id, clips[i].id))
  }

  lemma SortedIsInTime(clips: seq<Clip>)
    requires Sorted(clips, ClipBefore)
    ensures InTime(clips)
  {
    forall i, j | 0 <= i < j < |clips|
      ensures clips[i].start < clips[j].start || (clips[i].start == clips[j].start && !StringLess(clips[j].id, clips[i].id))
    {
      assert !ClipBefore(clips[j], clips[i]);
    }
  }

  /** What becomes of a track of which something was protected.  If the operation left all its
      clips alone, it is again as it was.  Otherwise it holds, in timeline order, the protected
      clips as they were, and of the patched track exactly the clips that descend from none of
      them, each as often as it was there: what the operation did to the others stays. */
  lemma RestorationKeepsTheEdit(t: Track, current: seq<Track>, touchedTracks: set<string>, touchedClips: set<string>,
                                prefix: string)
    requires DistinctIds(current) && t.id in Snapshots(current, touchedTracks, touchedClips)
    ensures var preserved := Snapshots(current, touchedTracks, touchedClips);
      var r, snapshot := Restored(t, current, preserved, prefix), preserved[t.id];
      if LeftAlone(current, t.id, touchedTracks, touchedClips) then TrackById(current, t.id) == Some(r)
      else
        && (forall c :: multiset(r.clips)[c] ==
              multiset(snapshot.clips)[c] + (if Unrelated(c, snapshot, prefix) then multiset(t.clips)[c] else 0))
        && InTime(r.clips) && r == t.(clips := r.clips, mix := snapshot.mix)
  {
    var preserved := Snapshots(current, touchedTracks, touchedClips);
    ProtectedAsAWhole(current, touchedTracks, touchedClips, t.id);
    if !LeftAlone(current, t.id, touchedTracks, touchedClips) {
      forall c ensures multiset(Restored(t, current, preserved, prefix).clips)[c] ==
        multiset(preserved[t.id].clips)[c] + (if Unrelated(c, preserved[t.id], prefix) then multiset(t.clips)[c] else 0)
      {
        UnrelatedClipsSurvive(t, current, preserved, prefix, c);
        UnrelatedIs(c, preserved[t.id], prefix);
      }
      UnrelatedClipsSurvive(t, current, preserved, prefix, Clip("", "", 0, 0, false, 0, 0, Nil));
      SortedIsInTime(Restored(t, current, preserved, prefix).clips);
    }
  }

  /** Tracks of which nothing was protected stay as the operation left them. */
  lemma OtherTracksStay(t: Track, current: seq<Track>, preserved: map<string, Track>, prefix: string)
    requires t.id !in preserved
    ensures Restored(t, current, preserved, prefix) == t
  {
  }

  // ---------------------------------------------------------------- what a conflict is

  lemma {:induction false} CountTwice(clips: seq<Clip>, id: string)
    ensures Count(clips, id) > 1 <==> exists i, j :: 0 <= i < j < |clips| && clips[i].id == id && clips[j].id == id
  {
    if clips != [] {
      CountTwice(clips[1..], id);
      CountZero(clips[1..], id);
      if i, j :| 0 <= i < j < |clips| && clips[i].id == id && clips[j].id == id {
        assert clips[1..][j - 1].id == id && clips[1..][j - 1] in clips[1..];
        if i > 0 { assert clips[1..][i - 1].id == id; }
      }
      if Count(clips, id) > 1 && clips[0].id == id {
        var c :| c in clips[1..] && c.id == id;
        var j :| 0 <= j < |clips[1..]| && clips[1..][j] == c;
        assert clips[j + 1].id == id;
      }
      if i, j :| 0 <= i < j < |clips[1..]| && clips[1..][i].id == id && clips[1..][j].id == id {
        assert clips[i + 1].id == id && clips[j + 1].id == id;
      }
    }
  }

  /** A clip of the document has the id of a protected clip, but not its lineage, or is not the
      only one with that id. */
  ghost predicate Usurps(clips: seq<Clip>, i: int, s: Clip, prefix: string) {
    && 0 <= i < |clips| && clips[i].id == s.id
    && (Lineage(clips[i], prefix) != Some(s.id) || exists j :: 0 <= j < |clips| && j != i && clips[j].id == s.id)
  }

  lemma UsurperConflicts(tracks: seq<Track>, preserved: map<string, Track>, prefix: string, k: string, s: Clip, i: int)
    requires k in preserved && s in preserved[k].clips && Usurps(AllClips(tracks), i, s, prefix)
    ensures Conflict(tracks, preserved, prefix, s.id)
  {
    var clips := AllClips(tracks);
    var n :| 0 <= n < |preserved[k].clips| && preserved[k].clips[n] == s;
    assert s.id in Ids(preserved[k].clips) && Protected(preserved, s.id) && clips[i] in clips;
    if Lineage(clips[i], prefix) == Some(s.id) {
      var j :| 0 <= j < |clips| && j != i && clips[j].id == s.id;
      CountTwice(clips, s.id);
      assert 0 <= (if i < j then i else j) < (if i < j then j else i) < |clips|;
    } else {
      assert Impostor(clips[i], preserved, prefix);
    }
  }

  lemma ConflictHasUsurper(tracks: seq<Track>, preserved: map<string, Track>, prefix: string, id: string)
    returns (k: string, s: Clip, i: int)
    requires Conflict(tracks, preserved, prefix, id)
    ensures k in preserved && s in preserved[k].clips && s.id == id && Usurps(AllClips(tracks), i, s, prefix)
  {
    var clips := AllClips(tracks);
    CountTwice(clips, id);
    assert Protected(preserved, id);
    k :| k in preserved && id in Ids(preserved[k].clips);
    var n :| 0 <= n < |preserved[k].clips| && preserved[k].clips[n].id == id;
    s := preserved[k].clips[n];
    if c :| c in clips && c.id == id && Impostor(c, preserved, prefix) {
      i :| 0 <= i < |clips| && clips[i] == c;
    } else {
      var j: nat;
      i, j :| 0 <= i < j < |clips| && clips[i].id == id && clips[j].id == id;
    }
  }

  ghost predicate UsurpsOn(tracks: seq<Track>, preserved: map<string, Track>, prefix: string, k: string, s: Clip, i: int) {
    k in preserved && s in preserved[k].clips && Usurps(AllClips(tracks), i, s, prefix)
  }

  /** There is a conflict about an id exactly if some clip usurps a protected one of that id. */
  lemma ConflictMeans(tracks: seq<Track>, preserved: map<string, Track>, prefix: string, id: string)
    ensures Conflict(tracks, preserved, prefix, id) <==>
      exists k, s, i :: UsurpsOn(tracks, preserved, prefix, k, s, i) && s.id == id
  {
    if k, s, i :| UsurpsOn(tracks, preserved, prefix, k, s, i) && s.id == id {
      UsurperConflicts(tracks, preserved, prefix, k, s, i);
    }
    if Conflict(tracks, preserved, prefix, id) {
      var k, s, i := ConflictHasUsurper(tracks, preserved, prefix, id);
      assert UsurpsOn(tracks, preserved, prefix, k, s, i);
    }
  }

  // ---------------------------------------------------------------- a stray copy

  lemma CountSingle(c: Clip)
    ensures forall id :: Count([c], id) == if c.id == id then 1 else 0
  {
    assert [c][1..] == [];
  }

  lemma TwoTracks(a: Track, b: Track, current: seq<Track>, preserved: map<string, Track>)
    requires a.id == "bgm" && b.id != "bgm"
    ensures AllClips([a, b]) == a.clips + b.clips && Occurrences([a, b], "bgm") == 1
    ensures Strays([a, b], current, preserved, "bgm", "c") == if Replaced(b, current, preserved) then 0 else Count(b.clips, "c")
  {
    assert [a, b][..1] == [a] && [a][..0] == [];
    assert AllClips([a]) == [] + a.clips;
    assert Occurrences([a], "bgm") == 1 && Strays([a], current, preserved, "bgm", "c") == 0;
  }

  const MIX: Mix := Mix(false, false, false, 0.0, 0)
  const STRAY: Clip := Clip("c", "bgm", 0, 10, false, 0, 0, Nil)

  /** The document before an operation that names neither a clip nor an audio track. */
  const STORED: seq<Track> := [Track("bgm", "audio", [STRAY], MIX), Track("sfx", "audio", [], MIX)]

  /** The operation's outcome: the marked clip is on the other independent track. */
  const STRAYED: seq<Track> := [Track("bgm", "audio", [], MIX), Track("sfx", "audio", [Marked(STRAY, "p")], MIX)]

  /** What is protected of the stored document. */
  lemma StrayIsProtected()
    ensures Snapshots(STORED, {}, {}) == map["bgm" := STORED[0]] && DistinctIds(STORED)
  {
    assert STORED[..1] == [STORED[0]] && STORED[..1][..0] == [] && [STRAY][..0] == [];
    assert UntouchedOnes([STRAY], false, {}) == [STRAY];
    assert Snapshots(STORED[..1], {}, {}) == map["bgm" := STORED[0]];
    assert UntouchedOnes(STORED[1].clips, false, {}) == [];
  }

  lemma StrayPassesCheck(id: string)
    requires AllClips(STRAYED) == [Marked(STRAY, "p")]
    ensures !Conflict(STRAYED, map["bgm" := STORED[0]], "p", id)
  {
    LineageOfMarked(STRAY, "p");
    CountSingle(Marked(STRAY, "p"));
  }

  /** A marked protected clip that an operation has put on the other independent track passes the
      check, is kept there, and is put back on its own track as well: preserved and current are
      what the caller passes, both taken from the stored document. */
  lemma StrayIsDuplicated()
    ensures var preserved := Snapshots(STORED, {}, {});
      && (forall id :: !Conflict(STRAYED, preserved, "p", id))
      && Count(AllClips(RestoredAll(STRAYED, STORED, preserved, "p")), "c") == 2
  {
    var preserved := map["bgm" := STORED[0]];
    StrayIsProtected();
    TwoTracks(STRAYED[0], STRAYED[1], STORED, preserved);
    assert [] + [Marked(STRAY, "p")] == [Marked(STRAY, "p")];
    forall id ensures !Conflict(STRAYED, preserved, "p", id) {
      StrayPassesCheck(id);
    }
    PreservedIdsAreUnique(STORED, {}, {});
    StrayCount(preserved);
  }

  lemma StrayCount(preserved: map<string, Track>)
    requires AllClips(STRAYED) == [Marked(STRAY, "p")]
    requires preserved == map["bgm" := STORED[0]] && UniqueIds(preserved)
    ensures Count(AllClips(RestoredAll(STRAYED, STORED, preserved, "p")), "c") == 2
  {
    LineageOfMarked(STRAY, "p");
    CountSingle(Marked(STRAY, "p"));
    TwoTracks(STRAYED[0], STRAYED[1], STORED, preserved);
    RestoredCountAll(STRAYED, STORED, preserved, "p", "bgm", STRAY);
  }
}
