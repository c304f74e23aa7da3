/**
 * Merge patches in the sense of section 2 of RFC 7396: computing the difference of two JSON
 * values and applying it again.
 */
module MergePatch {
  import opened Basics

  datatype Json =
    | Null
    | Bool(b: bool)
    | Number(n: real)
    | Text(s: string)
    | Array(items: seq<Json>)
    | Object(members: map<string, Json>)

  const EMPTY: Json := Object(map[])

  function Look(members: map<string, Json>, key: string): Option<Json> {
    if key in members then Some(members[key]) else None
  }

  lemma SameLooks(a: map<string, Json>, b: map<string, Json>)
    requires forall k :: Look(a, k) == Look(b, k)
    ensures a == b
  {
    forall k ensures k in a <==> k in b { assert Look(a, k) == Look(b, k); }
    forall k | k in a ensures a[k] == b[k] { assert Look(a, k) == Look(b, k); }
  }

  // ---------------------------------------------------------------- the difference

  /** Whether and how a member of the source or the target shows up in the patch. */
  function MemberDifference(source: Json, target: Json, key: string): Option<Json>
    requires source.Object? && target.Object?
    decreases source, 0
  {
    if key !in target.members then (if key in source.members then Some(Null) else None)
    else if key !in source.members then Some(target.members[key])
    else Difference(source.members[key], target.members[key])
  }

  function ObjectDifference(source: Json, target: Json): map<string, Json>
    requires source.Object? && target.Object?
    decreases source, 1
  {
    map key | key in source.members.Keys + target.members.Keys && MemberDifference(source, target, key).Some?
      :: MemberDifference(source, target, key).value
  }

  /** mergePatchDifference; None means unchanged. */
  function Difference(source: Json, target: Json): Option<Json>
    decreases source
  {
    if source == target then None
    else if !source.Object? || !target.Object? then Some(target)
    else Some(Object(ObjectDifference(source, target)))
  }

  lemma DifferenceMembers(source: Json, target: Json, key: string)
    requires source.Object? && target.Object?
    ensures Look(ObjectDifference(source, target), key) == MemberDifference(source, target, key)
  {
  }

  /** The first loop of mergePatchDifference: members that disappear become null. */
  method RemovedMembers(source: Json, target: Json) returns (patch: map<string, Json>)
    requires source.Object? && target.Object?
    ensures forall k ::
      Look(patch, k) == if k in source.members && k !in target.members then Some(Null) else None
  {
    patch := map[];
    var rest := source.members.Keys;
    while rest != {}
      invariant rest <= source.members.Keys
      invariant forall k ::
        Look(patch, k) ==
        if k in source.members && k !in rest && k !in target.members then Some(Null) else None
      decreases |rest|
    {
      var key :| key in rest;
      rest := rest - {key};
      if key !in target.members {
        patch := patch[key := Null];
      }
    }
  }

  method MergePatchDifference(source: Json, target: Json) returns (difference: Option<Json>)
    ensures difference == Difference(source, target)
    decreases source
  {
    if source == target {
      return None;
    }
    if !source.Object? || !target.Object? {
      return Some(target);
    }
    var patch := RemovedMembers(source, target);
    var rest := target.members.Keys;
    while rest != {}
      invariant rest <= target.members.Keys
      invariant forall k :: Look(patch, k) == if k in rest then None else MemberDifference(source, target, k)
      decreases |rest|
    {
      var key :| key in rest;
      var inner: Option<Json>;
      if key !in source.members {
        inner := Some(target.members[key]);
      } else {
        inner := MergePatchDifference(source.members[key], target.members[key]);
      }
      assert inner == MemberDifference(source, target, key);
      if inner.Some? {
        patch := patch[key := inner.value];
      }
      rest := rest - {key};
    }
    forall k ensures Look(patch, k) == Look(ObjectDifference(source, target), k) {
      DifferenceMembers(source, target, k);
    }
    SameLooks(patch, ObjectDifference(source, target));
    difference := Some(Object(patch));
  }

  // ---------------------------------------------------------------- applying a patch

  /** What a member becomes; `target` counts as empty unless it is an object. */
  function MergedMember(target: Json, patch: Json, key: string): Option<Json>
    requires target.Object? && patch.Object?
    decreases patch, 0
  {
    if key !in patch.members then
      if key in target.members then Some(target.members[key]) else None
    else if patch.members[key] == Null then None
    else Some(Merge(if key in target.members then target.members[key] else Null, patch.members[key]))
  }

  function MergedMembers(target: Json, patch: Json): map<string, Json>
    requires target.Object? && patch.Object?
    decreases patch, 1
  {
    map key | key in target.members.Keys + patch.members.Keys && MergedMember(target, patch, key).Some?
      :: MergedMember(target, patch, key).value
  }

  function Base(target: Json): Json { if target.Object? then target else EMPTY }

  /** The MergePatch function of RFC 7396. */
  function Merge(target: Json, patch: Json): Json
    decreases patch, 2
  {
    if !patch.Object? then patch else Object(MergedMembers(Base(target), patch))
  }

  lemma MergeMembers(target: Json, patch: Json, key: string)
    requires target.Object? && patch.Object?
    ensures Look(Merge(target, patch).members, key) == MergedMember(target, patch, key)
  {
  }

  /** MergeContentPlan: the members of the patch, in any order, merged into a copy. */
  method MergeContentPlan(target: Json, patch: Json) returns (result: Json)
    requires target.Object? && patch.Object?
    ensures result == Merge(target, patch)
    decreases patch
  {
    var members := target.members;
    var rest := patch.members.Keys;
    while rest != {}
      invariant rest <= patch.members.Keys
      invariant forall k ::
        Look(members, k) ==
        if k in patch.members && k !in rest then MergedMember(target, patch, k) else Look(target.members, k)
      decreases |rest|
    {
      var key :| key in rest;
      var value := patch.members[key];
      assert Look(members, key) == Look(target.members, key);
      var inner: Option<Json> := Some(value);
      if value == Null {
        inner := None;
      } else if value.Object? {
        var merged := MergeContentPlan(if key in members then Base(members[key]) else EMPTY, value);
        inner := Some(merged);
      }
      assert inner == MergedMember(target, patch, key);
      members := if inner.Some? then members[key := inner.value] else members - {key};
      rest := rest - {key};
    }
    result := Object(members);
    forall k ensures Look(members, k) == Look(Merge(target, patch).members, k) {
      MergeMembers(target, patch, k);
    }
    SameLooks(members, Merge(target, patch).members);
  }

  // ---------------------------------------------------------------- round trips

  /** The value without null members; arrays are values as they stand. */
  function DropNulls(v: Json): Json {
    if !v.Object? then v
    else Object(map key | key in v.members && v.members[key] != Null :: DropNulls(v.members[key]))
  }

  predicate NoNulls(v: Json) {
    v.Object? ==> forall key :: key in v.members ==> v.members[key] != Null && NoNulls(v.members[key])
  }

  lemma {:induction false} DropNullsIdempotent(v: Json)
    ensures DropNulls(DropNulls(v)) == DropNulls(v)
  {
    if v.Object? {
      forall key | key in v.members { DropNullsIdempotent(v.members[key]); }
    }
  }

  lemma {:induction false} DropNullsChangesNothing(v: Json)
    ensures DropNulls(v) == v <==> NoNulls(v)
  {
    if v.Object? {
      forall key | key in v.members { DropNullsChangesNothing(v.members[key]); }
      if DropNulls(v) == v {
        forall key | key in v.members ensures v.members[key] != Null && NoNulls(v.members[key]) {
          assert key in DropNulls(v).members;
        }
      }
      if NoNulls(v) {
        assert DropNulls(v).members == v.members;
      }
    }
  }

  /** Merging into nothing is dropping the nulls. */
  lemma {:induction false} MergeIntoNothing(target: Json, patch: Json)
    requires !target.Object? || target == EMPTY
    ensures Merge(target, patch) == DropNulls(patch)
    decreases patch
  {
    if patch.Object? {
      forall key ensures Look(Merge(target, patch).members, key) == Look(DropNulls(patch).members, key) {
        MergeMembers(EMPTY, patch, key);
        if key in patch.members { MergeIntoNothing(Null, patch.members[key]); }
      }
      SameLooks(Merge(target, patch).members, DropNulls(patch).members);
    }
  }

  function Apply(source: Json, patch: Option<Json>): Json {
    match patch case None => source case Some(p) => Merge(source, p)
  }

  /** What became of one member after the difference is applied. */
  lemma AppliedMember(source: Json, target: Json, key: string)
    requires source.Object? && target.Object? && source != target
    ensures Apply(source, Difference(source, target)).Object?
    ensures
      Look(Apply(source, Difference(source, target)).members, key) ==
      if key !in target.members then None
      else if key !in source.members then
        if target.members[key] == Null then None else Some(DropNulls(target.members[key]))
      else if target.members[key] == Null && source.members[key] != Null then None
      else Some(Apply(source.members[key], Difference(source.members[key], target.members[key])))
  {
    DifferenceMembers(source, target, key);
    MergeMembers(source, Object(ObjectDifference(source, target)), key);
    if key in target.members {
      MergeIntoNothing(Null, target.members[key]);
    }
  }

  /** For all JSON values, applying the difference to the source gives the target, up to null
      members. */
  lemma {:induction false} RoundTrip(source: Json, target: Json)
    ensures DropNulls(Apply(source, Difference(source, target))) == DropNulls(target)
    decreases source
  {
    if source != target {
      if source.Object? && target.Object? {
        var result := Apply(source, Difference(source, target));
        forall key ensures Look(DropNulls(result).members, key) == Look(DropNulls(target).members, key) {
          AppliedMember(source, target, key);
          if key in target.members {
            DropNullsIdempotent(target.members[key]);
            if key in source.members { RoundTrip(source.members[key], target.members[key]); }
          }
        }
        SameLooks(DropNulls(result).members, DropNulls(target).members);
      } else {
        if target.Object? { MergeIntoNothing(source, target); }
        DropNullsIdempotent(target);
      }
    }
  }

  /** What a merge patch can say: null members only where the source has them already. */
  predicate Expressible(source: Json, target: Json)
    decreases source
  {
    || source == target
    || (if source.Object? && target.Object? then
          forall key :: key in target.members ==>
            if key in source.members then
              (target.members[key] == Null ==> source.members[key] == Null)
              && Expressible(source.members[key], target.members[key])
            else target.members[key] != Null && NoNulls(target.members[key])
        else NoNulls(target))
  }

  /** The round trip is exact precisely for the targets that a merge patch can express. */
  lemma {:induction false} RoundTripExactly(source: Json, target: Json)
    ensures Apply(source, Difference(source, target)) == target <==> Expressible(source, target)
    decreases source
  {
    if source != target {
      if source.Object? && target.Object? {
        var result := Apply(source, Difference(source, target));
        forall key ensures Look(result.members, key) == Look(target.members, key) <==>
          (key in target.members ==>
            if key in source.members then
              (target.members[key] == Null ==> source.members[key] == Null)
              && Expressible(source.members[key], target.members[key])
            else target.members[key] != Null && NoNulls(target.members[key]))
        {
          AppliedMember(source, target, key);
          if key in target.members {
            DropNullsChangesNothing(target.members[key]);
            if key in source.members { RoundTripExactly(source.members[key], target.members[key]); }
          }
        }
        if Expressible(source, target) {
          SameLooks(result.members, target.members);
        }
      } else {
        if target.Object? { MergeIntoNothing(source, target); }
        DropNullsChangesNothing(target);
      }
    }
  }

  /** An unchanged value has no difference, and a changed object has a non-empty one. */
  lemma DifferenceEmptyIffEqual(source: Json, target: Json)
    requires source.Object? && target.Object?
    ensures Difference(source, target).None? <==> source == target
    ensures Difference(source, target).Some? ==>
      Difference(source, target).value.Object? && Difference(source, target).value.members != map[]
  {
    if source != target {
      if key :| Look(source.members, key) != Look(target.members, key) {
        DifferenceMembers(source, target, key);
      } else {
        SameLooks(source.members, target.members);
      }
    }
  }

  /** Applying a patch twice is applying it once. */
  lemma {:induction false} MergeIdempotent(target: Json, patch: Json)
    ensures Merge(Merge(target, patch), patch) == Merge(target, patch)
    decreases patch
  {
    if patch.Object? {
      var once := Merge(target, patch);
      forall key ensures Look(Merge(once, patch).members, key) == Look(once.members, key) {
        MergeMembers(once, patch, key);
        MergeMembers(Base(target), patch, key);
        if key in patch.members {
          MergeIdempotent(if key in Base(target).members then Base(target).members[key] else Null, patch.members[key]);
        }
      }
      SameLooks(Merge(once, patch).members, once.members);
    }
  }

  // ---------------------------------------------------------------- the rendered world state

  /** stableProviderWorldState: the sections without what is refreshed separately. */
  function StableSections(sections: map<string, Json>): map<string, Json> {
    map key | key in sections && key != "timeline" && key != "recent_edit_history" ::
      if key == "assets" && sections[key].Object?
      then Object(sections[key].members - {"used_by_timeline"}) else sections[key]
  }

  /** A snapshot as the JSON object it is hashed and patched as. */
  function Snapshot(version: int, sections: map<string, Json>): Json {
    Object(map["schema_version" := Number(version as real), "sections" := Object(sections)])
  }

  /** The messages that carry the state: a reference, and a patch unless nothing changed. */
  datatype Rendered = Rendered(reference: Json, patch: Option<Json>)

  /** The choice of `build` followed by renderContextMessages.  `rebase` stands for the size
      rule, which is asked only about a non-empty patch. */
  method Build(version: int, base: map<string, Json>, current: map<string, Json>, rebase: bool)
    returns (rendered: Rendered, newBase: map<string, Json>)
    ensures newBase == if base != current && rebase then current else base
    ensures rendered.reference == Snapshot(version, StableSections(newBase))
    ensures rendered.patch == Difference(rendered.reference, Snapshot(version, StableSections(current)))
  {
    newBase := base;
    var patch := MergePatchDifference(Snapshot(version, base), Snapshot(version, current));
    SnapshotsDiffer(version, base, current);
    if patch.Some? && rebase {
      newBase := current;
    }
    var reference := Snapshot(version, StableSections(newBase));
    patch := MergePatchDifference(reference, Snapshot(version, StableSections(current)));
    rendered := Rendered(reference, patch);
  }

  lemma SnapshotsDiffer(version: int, base: map<string, Json>, current: map<string, Json>)
    ensures Snapshot(version, base) == Snapshot(version, current) <==> base == current
  {
    if Snapshot(version, base) == Snapshot(version, current) {
      assert Snapshot(version, base).members["sections"] == Object(base);
      assert Snapshot(version, current).members["sections"] == Object(current);
    }
  }

  /** Rebased or not, the reference with the patch applied denotes the current stable state, and
      the patch is left out exactly when the reference is that state already. */
  lemma RenderedDenotesCurrent(version: int, base: map<string, Json>, current: map<string, Json>, rendered: Rendered)
    requires rendered.reference == Snapshot(version, StableSections(base))
    requires rendered.patch == Difference(rendered.reference, Snapshot(version, StableSections(current)))
    ensures DropNulls(Apply(rendered.reference, rendered.patch)) == DropNulls(Snapshot(version, StableSections(current)))
    ensures rendered.patch.None? <==> StableSections(base) == StableSections(current)
    ensures rendered.patch.Some? ==> rendered.patch.value.Object? && rendered.patch.value.members != map[]
    ensures base == current ==> rendered.patch.None?
  {
    RoundTrip(rendered.reference, Snapshot(version, StableSections(current)));
    DifferenceEmptyIffEqual(rendered.reference, Snapshot(version, StableSections(current)));
    SnapshotsDiffer(version, StableSections(base), StableSections(current));
  }

  /** The states agree on all that is not refreshed separately. */
  ghost predicate SameButRefreshed(base: map<string, Json>, current: map<string, Json>) {
    forall key :: key != "timeline" && key != "recent_edit_history" ==>
      && (key in base <==> key in current)
      && (key in base && key in current ==>
            if key == "assets" && base[key].Object? && current[key].Object? then
              forall m :: m != "used_by_timeline" ==> Look(base[key].members, m) == Look(current[key].members, m)
            else base[key] == current[key])
  }

  lemma StableAssets(a: Json, b: Json)
    requires a.Object? && b.Object?
    ensures Object(a.members - {"used_by_timeline"}) == Object(b.members - {"used_by_timeline"}) <==>
      forall m :: m != "used_by_timeline" ==> Look(a.members, m) == Look(b.members, m)
  {
    var x, y := a.members - {"used_by_timeline"}, b.members - {"used_by_timeline"};
    forall m ensures Look(x, m) == (if m == "used_by_timeline" then None else Look(a.members, m))
             && Look(y, m) == (if m == "used_by_timeline" then None else Look(b.members, m)) {}
    if forall m :: m != "used_by_timeline" ==> Look(a.members, m) == Look(b.members, m) {
      SameLooks(x, y);
    }
    if x == y {
      forall m | m != "used_by_timeline" ensures Look(a.members, m) == Look(b.members, m) {
        assert Look(x, m) == Look(y, m);
      }
    }
  }

  /** The stable state leaves out the sections that are refreshed separately, and nothing else. */
  lemma StableIs(sections: map<string, Json>, key: string)
    ensures Look(StableSections(sections), key) ==
      if key == "timeline" || key == "recent_edit_history" || key !in sections then None
      else if key == "assets" && sections[key].Object? then Some(Object(sections[key].members - {"used_by_timeline"}))
      else Some(sections[key])
  {
  }

  lemma StableMember(base: map<string, Json>, current: map<string, Json>, key: string)
    requires key != "timeline" && key != "recent_edit_history"
    ensures Look(StableSections(base), key) == Look(StableSections(current), key) <==>
      && (key in base <==> key in current)
      && (key in base && key in current ==>
            if key == "assets" && base[key].Object? && current[key].Object? then
              forall m :: m != "used_by_timeline" ==> Look(base[key].members, m) == Look(current[key].members, m)
            else base[key] == current[key])
  {
    StableIs(base, key);
    StableIs(current, key);
    if key == "assets" && key in base && key in current && base[key].Object? && current[key].Object? {
      StableAssets(base[key], current[key]);
    }
  }

  /** No patch is sent exactly if, from the reference's state to the current one, nothing has
      changed but the timeline, the edit history and which assets the timeline uses. */
  lemma NoPatchIffSame(version: int, base: map<string, Json>, current: map<string, Json>)
    ensures Difference(Snapshot(version, StableSections(base)), Snapshot(version, StableSections(current))).None?
      <==> SameButRefreshed(base, current)
  {
    var a, b := StableSections(base), StableSections(current);
    DifferenceEmptyIffEqual(Snapshot(version, a), Snapshot(version, b));
    SnapshotsDiffer(version, a, b);
    forall key | key != "timeline" && key != "recent_edit_history"
      ensures Look(a, key) == Look(b, key) <==>
        && (key in base <==> key in current)
        && (key in base && key in current ==>
              if key == "assets" && base[key].Object? && current[key].Object? then
                forall m :: m != "used_by_timeline" ==> Look(base[key].members, m) == Look(current[key].members, m)
              else base[key] == current[key])
    {
      StableMember(base, current, key);
    }
    if SameButRefreshed(base, current) {
      forall key ensures Look(a, key) == Look(b, key) {
        StableIs(base, key);
        StableIs(current, key);
      }
      SameLooks(a, b);
    }
  }

  // ---------------------------------------------------------------- no more than the difference

  /** The patch names, at every depth, only members that differ. */
  ghost predicate Lean(source: Json, target: Json, patch: Json)
    decreases source
  {
    && source != target
    && (source.Object? && target.Object? ==>
          && patch.Object?
          && (forall key :: key in patch.members <==> Look(source.members, key) != Look(target.members, key))
          && forall key :: key in patch.members && key in source.members && key in target.members ==>
               Lean(source.members[key], target.members[key], patch.members[key]))
  }

  /** The difference names exactly the members that differ, at every depth. */
  lemma {:induction false} DifferenceIsLean(source: Json, target: Json)
    requires source != target
    ensures Difference(source, target).Some? && Lean(source, target, Difference(source, target).value)
    decreases source
  {
    if source.Object? && target.Object? {
      var patch := Difference(source, target).value;
      forall key
        ensures key in patch.members <==> Look(source.members, key) != Look(target.members, key)
        ensures key in patch.members && key in source.members && key in target.members ==>
          Lean(source.members[key], target.members[key], patch.members[key])
      {
        DifferenceMembers(source, target, key);
        if key in source.members && key in target.members && source.members[key] != target.members[key] {
          DifferenceIsLean(source.members[key], target.members[key]);
        }
      }
    }
  }

  /** A snapshot has exactly the version and the sections. */
  lemma SnapshotHas(version: int, sections: map<string, Json>, key: string)
    ensures Snapshot(version, sections).Object?
    ensures Look(Snapshot(version, sections).members, key) ==
      if key == "schema_version" then Some(Number(version as real))
      else if key == "sections" then Some(Object(sections)) else None
  {
  }
}
