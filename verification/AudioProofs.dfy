/**
 * Proofs that an overhang of independent audio was preserved on purpose, stored with a
 * timeline version and checked again whenever that version is validated.
 *
 * The hash of a track's timing is modelled by the timing itself: it is taken to be injective.
 */
module AudioProofs {
  import opened Basics
  import opened IndependentAudio
  import opened AudioRestoration

  datatype ClipTiming = ClipTiming(id: string, track: string, start: int, end: int, linked: bool, source: nat)
  datatype Timing = Timing(track: string, clips: seq<ClipTiming>)

  const PROOF_TYPE := "bounded_independent_audio_v1"

  datatype Proof = Proof(kind: string, track: string, timing: Timing, overhang: int)

  datatype Verified = NoProofs | Tracks(preserved: map<string, Track>)

  function TimingOf(t: Track): (r: Timing)
    ensures |r.clips| == |t.clips|
  {
    Timing(t.id, seq(|t.clips|, i requires 0 <= i < |t.clips| => ClipTimingOf(t.clips[i])))
  }

  function ClipTimingOf(c: Clip): ClipTiming { ClipTiming(c.id, c.track, c.start, c.end, c.linked, c.source) }

  /** How far the track reaches beyond the document. */
  function Overhang(clips: seq<Clip>, duration: int): nat {
    if clips == [] then 0 else Max(Overhang(clips[..|clips| - 1], duration), clips[|clips| - 1].end - duration)
  }

  /** The proof for one track, if there is an overhang to account for. */
  function ProofsFor(trackId: string, preserved: map<string, Track>, duration: int): seq<Proof> {
    if trackId in preserved && Overhang(preserved[trackId].clips, duration) > 0
    then [Proof(PROOF_TYPE, trackId, TimingOf(preserved[trackId]), Overhang(preserved[trackId].clips, duration))]
    else []
  }

  method OverhangOf(t: Track, duration: int) returns (overhang: nat)
    ensures overhang == Overhang(t.clips, duration)
  {
    overhang := 0;
    for i := 0 to |t.clips|
      invariant overhang == Overhang(t.clips[..i], duration)
    {
      assert t.clips[..i + 1][..i] == t.clips[..i];
      overhang := Max(overhang, t.clips[i].end - duration);
    }
    assert t.clips[..|t.clips|] == t.clips;
  }

  /** Nothing is stored when there is nothing to prove. */
  method AddProofs(preserved: map<string, Track>, duration: int) returns (stored: Option<seq<Proof>>)
    ensures stored == if StoredProofs(preserved, duration) == [] then None else Some(StoredProofs(preserved, duration))
  {
    var proofs := [];
    var ids := ["bgm", "sfx"];
    for i := 0 to 2
      invariant proofs == (if i > 0 then ProofsFor(ids[0], preserved, duration) else [])
        + (if i > 1 then ProofsFor(ids[1], preserved, duration) else [])
    {
      if ids[i] !in preserved {
        continue;
      }
      var overhang := OverhangOf(preserved[ids[i]], duration);
      if overhang == 0 {
        continue;
      }
      proofs := proofs + [Proof(PROOF_TYPE, ids[i], TimingOf(preserved[ids[i]]), overhang)];
    }
    stored := if |proofs| > 0 then Some(proofs) else None;
  }

  /** The proof still fits the document: the track exists with this timing and overhang. */
  predicate Holds(p: Proof, tracks: seq<Track>, duration: int) {
    && p.kind == PROOF_TYPE && IsIndependent(p.track) && TrackById(tracks, p.track).Some?
    && TimingOf(TrackById(tracks, p.track).value) == p.timing
    && p.overhang > 0 && Overhang(TrackById(tracks, p.track).value.clips, duration) == p.overhang
  }

  function Checked(proofs: seq<Proof>, tracks: seq<Track>, duration: int): map<string, Track> {
    if proofs == [] then map[]
    else
      var p := proofs[|proofs| - 1];
      var before := Checked(proofs[..|proofs| - 1], tracks, duration);
      if Holds(p, tracks, duration) then before[p.track := TrackById(tracks, p.track).value] else before
  }

  /** A stored list of proofs is authoritative, whether they hold or not, and even if it is empty. */
  method VerifyProofs(tracks: seq<Track>, duration: int, stored: Option<seq<Proof>>) returns (r: Verified)
    ensures r == if stored.None? then NoProofs else Tracks(Checked(stored.value, tracks, duration))
  {
    if stored.None? {
      return NoProofs;
    }
    var proofs := stored.value;
    var preserved: map<string, Track> := map[];
    for i := 0 to |proofs|
      invariant preserved == Checked(proofs[..i], tracks, duration)
    {
      var p := proofs[i];
      assert proofs[..i + 1][..i] == proofs[..i];
      var track := TrackById(tracks, p.track);
      if p.kind != PROOF_TYPE || !IsIndependent(p.track) || track.None? {
        continue;
      }
      var overhang := OverhangOf(track.value, duration);
      if TimingOf(track.value) == p.timing && p.overhang > 0 && overhang == p.overhang {
        preserved := preserved[p.track := track.value];
      }
    }
    assert proofs[..|proofs|] == proofs;
    r := Tracks(preserved);
  }

  function StoredProofs(preserved: map<string, Track>, duration: int): seq<Proof> {
    ProofsFor("bgm", preserved, duration) + ProofsFor("sfx", preserved, duration)
  }

  ghost predicate HasProof(proofs: seq<Proof>, tracks: seq<Track>, duration: int, k: string) {
    exists i :: 0 <= i < |proofs| && proofs[i].track == k && Holds(proofs[i], tracks, duration)
  }

  /** A track is accepted exactly if some stored proof for it fits the document. */
  lemma {:induction false} CheckedAre(proofs: seq<Proof>, tracks: seq<Track>, duration: int, k: string)
    ensures k in Checked(proofs, tracks, duration) <==> HasProof(proofs, tracks, duration, k)
    ensures k in Checked(proofs, tracks, duration) ==> Some(Checked(proofs, tracks, duration)[k]) == TrackById(tracks, k)
  {
    if proofs != [] {
      var n := |proofs| - 1;
      CheckedAre(proofs[..n], tracks, duration, k);
      assert forall i :: 0 <= i < n ==> proofs[..n][i] == proofs[i];
    }
  }

  /** On any document, whatever it was before, they account only for tracks whose timing and overhang are those of
      the preserved ones: an edit of the timing invalidates the proof. */
  lemma ProofsBindTiming(tracks: seq<Track>, duration: int, preserved: map<string, Track>, before: int, k: string)
    ensures k in Checked(StoredProofs(preserved, before), tracks, duration) <==>
      && IsIndependent(k) && k in preserved && TrackById(tracks, k).Some?
      && TimingOf(TrackById(tracks, k).value) == TimingOf(preserved[k])
      && 0 < Overhang(preserved[k].clips, before) == Overhang(TrackById(tracks, k).value.clips, duration)
  {
    CheckedAre(StoredProofs(preserved, before), tracks, duration, k);
    StoredFor(preserved, before, k);
    var proof := StoredProof(preserved, before, k);
    if IsIndependent(k) && k in preserved && Overhang(preserved[k].clips, before) > 0 {
      assert proof in StoredProofs(preserved, before);
    }
  }

  /** The proof that a protected track with an overhang gets. */
  function StoredProof(preserved: map<string, Track>, before: int, k: string): Proof {
    if k in preserved then Proof(PROOF_TYPE, k, TimingOf(preserved[k]), Overhang(preserved[k].clips, before))
    else Proof("", k, Timing(k, []), 0)
  }

  lemma StoredFor(preserved: map<string, Track>, before: int, k: string)
    ensures forall p :: p in StoredProofs(preserved, before) && p.track == k ==>
      p == StoredProof(preserved, before, k) && IsIndependent(k) && k in preserved && p.overhang > 0
    ensures IsIndependent(k) && k in preserved && Overhang(preserved[k].clips, before) > 0 ==>
      StoredProof(preserved, before, k) in StoredProofs(preserved, before)
  {
    var first := ProofsFor("bgm", preserved, before);
    if IsIndependent(k) && k in preserved && Overhang(preserved[k].clips, before) > 0 {
      var i := if k == "bgm" then 0 else |first|;
      assert StoredProofs(preserved, before)[i] == StoredProof(preserved, before, k);
    }
  }

  /** Proofs that were added for tracks of a document verify again on the same document, and
      account for the same tracks: those with an overhang. */
  lemma ProofsVerifyAgain(tracks: seq<Track>, duration: int, preserved: map<string, Track>, k: string)
    requires forall j :: j in preserved ==> IsIndependent(j) && Some(preserved[j]) == TrackById(tracks, j)
    ensures var again := Checked(StoredProofs(preserved, duration), tracks, duration);
      && (k in again <==> k in preserved && Overhang(preserved[k].clips, duration) > 0)
      && (k in again ==> again[k] == preserved[k])
  {
    ProofsBindTiming(tracks, duration, preserved, duration, k);
    CheckedAre(StoredProofs(preserved, duration), tracks, duration, k);
  }

  /** Two tracks have the same timing exactly if they are the same track with the same clips at the
      same places from the same source: whatever moves a clip changes it. */
  lemma TimingIs(t: Track, u: Track)
    ensures TimingOf(t) == TimingOf(u) <==>
      && t.id == u.id && |t.clips| == |u.clips|
      && forall i :: 0 <= i < |t.clips| ==>
           && t.clips[i].id == u.clips[i].id && t.clips[i].track == u.clips[i].track
           && t.clips[i].start == u.clips[i].start && t.clips[i].end == u.clips[i].end
           && t.clips[i].linked == u.clips[i].linked && t.clips[i].source == u.clips[i].source
  {
    var a, b := TimingOf(t), TimingOf(u);
    forall i | 0 <= i < |t.clips| ensures a.clips[i] == ClipTimingOf(t.clips[i]) {}
    forall i | 0 <= i < |u.clips| ensures b.clips[i] == ClipTimingOf(u.clips[i]) {}
    if a == b {
      forall i | 0 <= i < |t.clips| ensures ClipTimingOf(t.clips[i]) == ClipTimingOf(u.clips[i]) {
        assert a.clips[i] == b.clips[i];
      }
    }
    if t.id == u.id && |t.clips| == |u.clips| && forall i :: 0 <= i < |t.clips| ==> ClipTimingOf(t.clips[i]) == ClipTimingOf(u.clips[i]) {
      assert a.clips == b.clips;
    }
  }

  /** The overhang is how far the furthest clip reaches beyond the document, if any does. */
  lemma {:induction false} OverhangIs(clips: seq<Clip>, duration: int)
    ensures forall c :: c in clips ==> c.end <= duration + Overhang(clips, duration)
    ensures Overhang(clips, duration) > 0 ==> exists c :: c in clips && c.end == duration + Overhang(clips, duration)
  {
    if clips != [] {
      var n := |clips| - 1;
      OverhangIs(clips[..n], duration);
      assert clips == clips[..n] + [clips[n]] && clips[n] in clips;
      if c :| c in clips[..n] && c.end == duration + Overhang(clips[..n], duration) {
        assert c in clips;
      }
    }
  }
}
