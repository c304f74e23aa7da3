/**
 * Clips on the independent audio tracks carry a lineage marker in their metadata while an
 * operation is tried out, so that what descends from a protected clip can be recognised.
 */
module IndependentAudio {
  import opened Basics

  /** A metadata value; only strings matter here. */
  datatype Value = Text(text: string) | OtherValue(code: nat)

  /** A nil map and an empty one are different values in memory. */
  datatype Metadata = Nil | Entries(entries: map<string, Value>)

  /** `source` stands for the other fields that a timing proof covers, `look` for the rest. */
  datatype Clip = Clip(id: string, track: string, start: int, end: int, linked: bool, source: nat, look: nat,
                       metadata: Metadata)

  datatype Mix = Mix(muted: bool, solo: bool, locked: bool, gain: real, ducking: nat)

  datatype Track = Track(id: string, kind: string, clips: seq<Clip>, mix: Mix)

  const LINEAGE_KEY := "_rushes_preserved_audio_lineage"

  predicate IsIndependent(trackId: string) { trackId == "bgm" || trackId == "sfx" }

  function MarkerValue(prefix: string, id: string): string { prefix + ":" + id }

  function CutPrefix(s: string, prefix: string): Option<string> {
    if |s| >= |prefix| && s[..|prefix|] == prefix then Some(s[|prefix|..]) else None
  }

  /** preservedAudioLineageID: the protected clip that this one descends from, if any. */
  function Lineage(c: Clip, prefix: string): Option<string> {
    if c.metadata.Nil? || LINEAGE_KEY !in c.metadata.entries || !c.metadata.entries[LINEAGE_KEY].Text? || prefix == ""
    then None
    else
      var cut := CutPrefix(c.metadata.entries[LINEAGE_KEY].text, prefix + ":");
      if cut == Some("") then None else cut
  }

  function EntriesOf(m: Metadata): map<string, Value> { if m.Nil? then map[] else m.entries }

  /** A nil and an empty map are the same metadata. */
  function Normal(m: Metadata): Metadata { if EntriesOf(m) == map[] then Nil else m }

  function Marked(c: Clip, prefix: string): Clip {
    c.(metadata := Entries(EntriesOf(c.metadata)[LINEAGE_KEY := Text(MarkerValue(prefix, c.id))]))
  }

  /** withoutPreservedAudioLineage: the original's own entry, if it had one, takes the marker's place. */
  function Stripped(c: Clip, originals: map<string, Clip>, prefix: string): Clip {
    var lineage := Lineage(c, prefix);
    if lineage.None? || lineage.value !in originals then c
    else
      var own := EntriesOf(originals[lineage.value].metadata);
      var rest := EntriesOf(c.metadata) - {LINEAGE_KEY};
      var entries := if LINEAGE_KEY in own then rest[LINEAGE_KEY := own[LINEAGE_KEY]] else rest;
      c.(metadata := if entries == map[] then Nil else Entries(entries))
  }

  lemma LineageOfMarked(c: Clip, prefix: string)
    requires prefix != ""
    ensures Lineage(Marked(c, prefix), prefix) == if c.id == "" then None else Some(c.id)
  {
    var marker := MarkerValue(prefix, c.id);
    assert marker[..|prefix + ":"|] == prefix + ":" && marker[|prefix + ":"|..] == c.id;
  }

  /** A clip descends exactly from the clip whose marker, made with the prefix, it carries. */
  lemma LineageExactly(c: Clip, prefix: string, id: string)
    requires prefix != ""
    ensures Lineage(c, prefix) == Some(id) <==>
      id != "" && LINEAGE_KEY in EntriesOf(c.metadata) && EntriesOf(c.metadata)[LINEAGE_KEY] == Text(prefix + ":" + id)
  {
    var marker := prefix + ":" + id;
    assert marker[..|prefix + ":"|] == prefix + ":" && marker[|prefix + ":"|..] == id;
    if Lineage(c, prefix) == Some(id) {
      var text := c.metadata.entries[LINEAGE_KEY].text;
      assert text == text[..|prefix + ":"|] + text[|prefix + ":"|..];
    }
  }

  /** A clip that got its metadata from a marked one, whatever else the operation did to it,
      gets back the original's metadata: also when that uses the marker's key itself. */
  lemma StrippingRestoresMetadata(original: Clip, descendant: Clip, originals: map<string, Clip>, prefix: string)
    requires prefix != "" && original.id != "" && original.id in originals && originals[original.id] == original
    requires descendant.metadata == Marked(original, prefix).metadata
    ensures Stripped(descendant, originals, prefix) == descendant.(metadata := Normal(original.metadata))
  {
    LineageOfMarked(original, prefix);
    assert Lineage(descendant, prefix) == Some(original.id);
    var own := EntriesOf(original.metadata);
    if LINEAGE_KEY in own {
      assert (EntriesOf(descendant.metadata) - {LINEAGE_KEY})[LINEAGE_KEY := own[LINEAGE_KEY]] == own;
    } else {
      assert EntriesOf(descendant.metadata) - {LINEAGE_KEY} == own;
    }
  }

  // ---------------------------------------------------------------- whole documents

  function MarkedTrack(t: Track, prefix: string): (r: Track)
    ensures |r.clips| == |t.clips|
  {
    if IsIndependent(t.id) then t.(clips := seq(|t.clips|, i requires 0 <= i < |t.clips| => Marked(t.clips[i], prefix)))
    else t
  }

  function StrippedTrack(t: Track, originals: map<string, Clip>, prefix: string): (r: Track)
    ensures |r.clips| == |t.clips|
  {
    t.(clips := seq(|t.clips|, i requires 0 <= i < |t.clips| => Stripped(t.clips[i], originals, prefix)))
  }

  /** The clips of the independent audio tracks; a later clip replaces one with the same id. */
  function Originals(tracks: seq<Track>): map<string, Clip> {
    if tracks == [] then map[]
    else
      var before := Originals(tracks[..|tracks| - 1]);
      var t := tracks[|tracks| - 1];
      if IsIndependent(t.id) then before + ById(t.clips) else before
  }

  function ById(clips: seq<Clip>): map<string, Clip> {
    if clips == [] then map[] else ById(clips[..|clips| - 1])[clips[|clips| - 1].id := clips[|clips| - 1]]
  }

  /** The document that an operation is tried out on, changed in place. */
  class TimelineDocument {
    var tracks: seq<Track>

    constructor (tracks: seq<Track>)
      ensures this.tracks == tracks
    {
      this.tracks := tracks;
    }

    /** The marking that unlockPreservedIndependentAudio does. */
    method Mark(prefix: string)
      modifies this
      ensures |tracks| == |old(tracks)|
      ensures forall i :: 0 <= i < |tracks| ==> tracks[i] == MarkedTrack(old(tracks)[i], prefix)
    {
      for i := 0 to |tracks|
        invariant |tracks| == |old(tracks)|
        invariant forall k :: 0 <= k < |tracks| ==>
          tracks[k] == if k < i then MarkedTrack(old(tracks)[k], prefix) else old(tracks)[k]
      {
        tracks := tracks[i := MarkedTrack(tracks[i], prefix)];
      }
    }

    /** stripPreservedAudioLineage. */
    method Strip(current: seq<Track>, prefix: string)
      modifies this
      ensures |tracks| == |old(tracks)|
      ensures forall i :: 0 <= i < |tracks| ==> tracks[i] == StrippedTrack(old(tracks)[i], Originals(current), prefix)
    {
      var originals := Originals(current);
      for i := 0 to |tracks|
        invariant |tracks| == |old(tracks)|
        invariant forall k :: 0 <= k < |tracks| ==>
          tracks[k] == if k < i then StrippedTrack(old(tracks)[k], originals, prefix) else old(tracks)[k]
      {
        tracks := tracks[i := StrippedTrack(tracks[i], originals, prefix)];
      }
    }
  }

  /** Every clip on an independent track is the one that its id finds. */
  ghost predicate FoundById(tracks: seq<Track>) {
    forall t, i :: t in tracks && IsIndependent(t.id) && 0 <= i < |t.clips| ==>
      t.clips[i].id in Originals(tracks) && Originals(tracks)[t.clips[i].id] == t.clips[i]
  }

  predicate Uses(c: Clip, prefix: string) {
    && LINEAGE_KEY in EntriesOf(c.metadata) && EntriesOf(c.metadata)[LINEAGE_KEY].Text?
    && CutPrefix(EntriesOf(c.metadata)[LINEAGE_KEY].text, prefix + ":").Some?
  }

  /** Nobody has used the random prefix yet. */
  ghost predicate Fresh(tracks: seq<Track>, prefix: string) {
    prefix != "" && forall t, i :: t in tracks && 0 <= i < |t.clips| ==> !Uses(t.clips[i], prefix)
  }

  function NormalTrack(t: Track): (r: Track)
    ensures |r.clips| == |t.clips|
  {
    if IsIndependent(t.id)
    then t.(clips := seq(|t.clips|, i requires 0 <= i < |t.clips| => t.clips[i].(metadata := Normal(t.clips[i].metadata))))
    else t
  }

  /** Marking and stripping again is the identity on a document, up to empty metadata, exactly
      if no clip on an independent track has an empty id. */
  lemma MarkThenStrip(tracks: seq<Track>, prefix: string, t: Track)
    requires Fresh(tracks, prefix) && FoundById(tracks) && t in tracks
    ensures StrippedTrack(MarkedTrack(t, prefix), Originals(tracks), prefix) == NormalTrack(t)
      <==> !(IsIndependent(t.id) && exists i :: 0 <= i < |t.clips| && t.clips[i].id == "")
  {
    var originals := Originals(tracks);
    var back := StrippedTrack(MarkedTrack(t, prefix), originals, prefix);
    if IsIndependent(t.id) {
      forall i | 0 <= i < |t.clips|
        ensures back.clips[i] == NormalTrack(t).clips[i] <==> t.clips[i].id != ""
      {
        var c := t.clips[i];
        if c.id != "" {
          StrippingRestoresMetadata(c, Marked(c, prefix), originals, prefix);
        } else {
          LineageOfMarked(c, prefix);
          MarkerStays(c, prefix);
        }
      }
      if forall i :: 0 <= i < |t.clips| ==> t.clips[i].id != "" {
        assert back.clips == NormalTrack(t).clips;
      }
    } else {
      assert back.clips == t.clips;
    }
  }

  lemma MarkerStays(c: Clip, prefix: string)
    requires !Uses(c, prefix) && c.id == ""
    ensures Marked(c, prefix) != c.(metadata := Normal(c.metadata))
  {
    var m := Marked(c, prefix);
    assert m.metadata.entries[LINEAGE_KEY].text[..|prefix + ":"|] == prefix + ":";
    assert Uses(m, prefix);
    assert EntriesOf(Normal(c.metadata)) == EntriesOf(c.metadata);
  }

  /** No two clips of a document have the same id. */
  ghost predicate DistinctIds(tracks: seq<Track>) {
    forall s, t, i, j :: 0 <= s < |tracks| && 0 <= t < |tracks| && 0 <= i < |tracks[s].clips| && 0 <= j < |tracks[t].clips| ==>
      (tracks[s].clips[i].id == tracks[t].clips[j].id ==> s == t && i == j)
  }

  lemma {:induction false} ByIdFinds(clips: seq<Clip>)
    requires forall i, j :: 0 <= i < j < |clips| ==> clips[i].id != clips[j].id
    ensures forall i :: 0 <= i < |clips| ==> clips[i].id in ById(clips) && ById(clips)[clips[i].id] == clips[i]
    ensures forall x :: x in ById(clips) ==> exists i :: 0 <= i < |clips| && clips[i].id == x
  {
    if clips != [] {
      ByIdFinds(clips[..|clips| - 1]);
    }
  }

  /** With distinct ids every clip is the one that its id finds. */
  lemma {:induction false} DistinctIdsFind(tracks: seq<Track>)
    requires DistinctIds(tracks)
    ensures FoundById(tracks)
  {
    if tracks != [] {
      var n := |tracks| - 1;
      var before, t := tracks[..n], tracks[n];
      DistinctIdsFind(before);
      ByIdFinds(t.clips);
      forall u, i | u in tracks && IsIndependent(u.id) && 0 <= i < |u.clips|
        ensures u.clips[i].id in Originals(tracks) && Originals(tracks)[u.clips[i].id] == u.clips[i]
      {
        var s :| 0 <= s < |tracks| && tracks[s] == u;
        if s < n {
          assert before[s] == u;
          assert forall j :: 0 <= j < |t.clips| ==> tracks[n].clips[j].id != tracks[s].clips[i].id;
        }
      }
    }
  }
}
