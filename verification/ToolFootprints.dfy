/**
 * The routing decision in terms of what the tools look at and detect: exactly when the calls of
 * one message may run in parallel.
 */
module ToolFootprints {
  import opened Sorting
  import opened LockOrder
  import opened IndexedResourceCoordinators
  import opened ToolRouter

  predicate Scoped(ids: seq<string>) { ids != [] && forall id :: id in ids ==> id != "" }

  /** An asset is in a list of names; the name of the wildcard stands for all of them. */
  predicate Named(asset: string, ids: seq<string>) { asset in ids || "*" in ids }

  /** The call looks at what is stored in the domain about the asset: searches at the assets they
      name or, without usable names, at all of them, checks at everything that was said. */
  predicate LooksAt(call: ToolCall, domain: string, asset: string) {
    match call.arguments
    case Malformed =>
      || (domain == "speech" && call.name in {"speech.search", "shot.search", "timeline.check", "preview.check"})
      || (domain == "shots" && call.name in {"shot.search", "shot.deep_search"})
    case Fields(id, ids, shotIds, check) =>
      || (domain == "speech" && call.name == "speech.search" && (id == "" || Named(asset, [id])))
      || (domain in {"shots", "speech"} && call.name == "shot.search" && (!Scoped(ids) || Named(asset, ids)))
      || (domain == "speech" && call.name == "timeline.check")
      || (domain == "speech" && call.name == "preview.check" && check == "visual")
      || (domain == "shots" && call.name == "shot.deep_search" && Scoped(shotIds) && Named(asset, shotIds))
      || (Detects(call, domain, asset) || Detects(call, domain, "*"))
  }

  /** The call stores something about exactly one asset, and this is it. */
  predicate Detects(call: ToolCall, domain: string, asset: string) {
    && call.arguments.Fields?
    && (|| (domain == "shots" && call.name == "media.detect_shots" && call.arguments.assetId == asset != "")
        || (domain == "speech" && call.name == "speech.transcribe" && call.arguments.assetId == asset != "")
        || (domain == "shots" && call.name == "shot.deep_search" && Scoped(call.arguments.shotAssets)
            && forall id :: id in call.arguments.shotAssets ==> id == asset))
  }

  predicate OnlyReads(specs: map<string, Spec>, call: ToolCall) {
    call.name in specs && specs[call.name].effect == ReadOnly
  }

  /** A detector whose effect can be taken back, with exactly one asset. */
  ghost predicate IsDetector(specs: map<string, Spec>, call: ToolCall) {
    && call.name in specs && specs[call.name] == Spec(Detect, Reversible)
    && exists domain, asset :: Detects(call, domain, asset)
  }

  // ---------------------------------------------------------------- footprints

  lemma ScopedIs(ids: seq<string>)
    ensures Scoped(ids) <==> AllNamed(ids)
  {
  }

  lemma {:induction false} UniqueHas(ids: seq<string>, seen: set<string>)
    ensures forall id :: id in Unique(ids, seen) <==> id in ids && id !in seen
    ensures forall i, j :: 0 <= i < j < |Unique(ids, seen)| ==> Unique(ids, seen)[i] != Unique(ids, seen)[j]
  {
    if ids != [] {
      assert forall id :: id in ids <==> id == ids[0] || id in ids[1..];
      if ids[0] in seen { UniqueHas(ids[1..], seen); } else { UniqueHas(ids[1..], seen + {ids[0]}); }
    }
  }

  lemma KeysAre(a: Access, domain: string, asset: string)
    requires '\0' !in a.domain && '\0' !in domain
    ensures Key(domain, asset) in Keys(a) <==>
      a.domain == domain && if a.allResources then asset == "*" else asset in a.resources
  {
    if Key(domain, asset) in Keys(a) {
      var i :| 0 <= i < |Keys(a)| && Keys(a)[i] == Key(domain, asset);
      KeysDiffer(a.domain, if a.allResources then "*" else a.resources[i], domain, asset);
    }
    if a.domain == domain && !a.allResources && asset in a.resources {
      var i :| 0 <= i < |a.resources| && a.resources[i] == asset;
      assert Keys(a)[i] == Key(domain, asset);
    }
  }

  /** The access covers the asset. */
  predicate Covers(a: Access, domain: string, asset: string) {
    a.domain == domain && (a.allResources || Named(asset, a.resources))
  }

  lemma AllKeysAre(footprint: seq<Access>, domain: string, asset: string)
    requires '\0' !in domain && forall a :: a in footprint ==> '\0' !in a.domain
    ensures Key(domain, asset) in AllKeys(footprint) || Key(domain, "*") in AllKeys(footprint)
      <==> exists a :: a in footprint && Covers(a, domain, asset)
  {
    forall a | a in footprint
      ensures Key(domain, asset) in Keys(a) || Key(domain, "*") in Keys(a) <==> Covers(a, domain, asset)
    {
      KeysAre(a, domain, asset);
      KeysAre(a, domain, "*");
    }
    if a :| a in footprint && Covers(a, domain, asset) {
      assert Key(domain, asset) in Keys(a) || Key(domain, "*") in Keys(a);
    }
  }

  lemma SortedHas(ids: seq<string>)
    ensures forall id :: id in StableSort(ids, StringLess) <==> id in ids
    ensures forall id :: id in StableSort(Unique(ids, {}), StringLess) <==> id in ids
  {
    SortKeepsElements(ids, StringLess);
    SortKeepsElements(Unique(ids, {}), StringLess);
    UniqueHas(ids, {});
  }

  /** The footprint covers exactly what the call looks at. */
  lemma FootprintCovers(call: ToolCall, domain: string, asset: string)
    ensures (exists a :: a in Footprint(call).0 && Covers(a, domain, asset)) <==> LooksAt(call, domain, asset)
    ensures forall a :: a in Footprint(call).0 ==> '\0' !in a.domain
  {
    if call.arguments.Malformed? {
      WildcardCovers(call.name, domain, asset);
    } else {
      SortedHas(call.arguments.assetIds);
      SortedHas(call.arguments.shotAssets);
      FieldsCover(call, domain, asset);
    }
  }

  lemma One(a: Access, domain: string, asset: string)
    ensures (exists x :: x in [a] && Covers(x, domain, asset)) <==> Covers(a, domain, asset)
  {
    assert a in [a];
  }

  lemma Two(a: Access, b: Access, domain: string, asset: string)
    ensures (exists x :: x in [a, b] && Covers(x, domain, asset)) <==> Covers(a, domain, asset) || Covers(b, domain, asset)
  {
    assert a in [a, b] && b in [a, b];
  }

  lemma WildcardCovers(name: string, domain: string, asset: string)
    ensures (exists a :: a in Wildcard(name) && Covers(a, domain, asset))
      <==> LooksAt(ToolCall(name, Malformed), domain, asset)
    ensures forall a :: a in Wildcard(name) ==> '\0' !in a.domain
  {
    One(Everything("speech"), domain, asset);
    Two(Everything("shots"), Everything("speech"), domain, asset);
    One(Access("shots", [], true, true), domain, asset);
  }

  lemma FieldsCover(call: ToolCall, domain: string, asset: string)
    requires call.arguments.Fields?
    requires var ids := call.arguments.assetIds; forall id :: id in StableSort(ids, StringLess) <==> id in ids
    requires var ids := call.arguments.shotAssets; forall id :: id in StableSort(Unique(ids, {}), StringLess) <==> id in ids
    ensures (exists a :: a in Footprint(call).0 && Covers(a, domain, asset)) <==> LooksAt(call, domain, asset)
    ensures forall a :: a in Footprint(call).0 ==> '\0' !in a.domain
  {
    if call.name == "shot.search" {
      SearchCovers(call, domain, asset);
    } else if call.name == "shot.deep_search" {
      DeepSearchCovers(call, domain, asset);
    } else {
      OthersCover(call, domain, asset);
    }
  }

  lemma SearchCovers(call: ToolCall, domain: string, asset: string)
    requires call.arguments.Fields? && call.name == "shot.search"
    requires var ids := call.arguments.assetIds; forall id :: id in StableSort(ids, StringLess) <==> id in ids
    ensures (exists a :: a in Footprint(call).0 && Covers(a, domain, asset)) <==> LooksAt(call, domain, asset)
    ensures forall a :: a in Footprint(call).0 ==> '\0' !in a.domain
  {
    var f := Footprint(call).0;
    Two(f[0], f[1], domain, asset);
    assert f == [f[0], f[1]];
    ScopedIs(call.arguments.assetIds);
  }

  lemma DeepSearchCovers(call: ToolCall, domain: string, asset: string)
    requires call.arguments.Fields? && call.name == "shot.deep_search"
    requires var ids := call.arguments.shotAssets; forall id :: id in StableSort(Unique(ids, {}), StringLess) <==> id in ids
    ensures (exists a :: a in Footprint(call).0 && Covers(a, domain, asset)) <==> LooksAt(call, domain, asset)
    ensures forall a :: a in Footprint(call).0 ==> '\0' !in a.domain
  {
    var f, ids := Footprint(call).0, call.arguments.shotAssets;
    ScopedIs(ids);
    if f != [] { One(f[0], domain, asset); assert f == [f[0]]; }
    if Detects(call, domain, asset) || Detects(call, domain, "*") { assert ids[0] in ids; }
  }

  lemma OthersCover(call: ToolCall, domain: string, asset: string)
    requires call.arguments.Fields? && call.name != "shot.search" && call.name != "shot.deep_search"
    ensures (exists a :: a in Footprint(call).0 && Covers(a, domain, asset)) <==> LooksAt(call, domain, asset)
    ensures forall a :: a in Footprint(call).0 ==> '\0' !in a.domain
  {
    var f := Footprint(call).0;
    if f != [] { One(f[0], domain, asset); assert f == [f[0]]; }
  }

  // ---------------------------------------------------------------- routes

  lemma ReaderKeys(specs: map<string, Spec>, call: ToolCall, domain: string, asset: string)
    requires OnlyReads(specs, call) && '\0' !in domain
    ensures RouteOf(specs, call).Reader?
    ensures var keys := RouteOf(specs, call).keys;
      Key(domain, asset) in keys || Key(domain, "*") in keys <==> LooksAt(call, domain, asset)
  {
    FootprintCovers(call, domain, asset);
    AllKeysAre(Footprint(call).0, domain, asset);
  }

  lemma AllTheSame(ids: seq<string>)
    requires ids != []
    ensures |Unique(ids, {})| == 1 <==> forall id :: id in ids ==> id == ids[0]
    ensures |Unique(ids, {})| == 1 ==> StableSort(Unique(ids, {}), StringLess) == [ids[0]]
  {
    var u := Unique(ids, {});
    UniqueHas(ids, {});
    assert ids[0] in u;
    assert forall i :: 0 <= i < |u| ==> u[i] in u;
    assert |u| > 1 ==> u[0] != u[1];
    if |u| == 1 {
      assert u == [u[0]];
      forall id | id in ids ensures id == ids[0] { assert id in u; }
      assert u[1..] == [];
    }
  }

  lemma DetectorRoute(specs: map<string, Spec>, call: ToolCall)
    requires call.name in specs && specs[call.name].effect != ReadOnly
    ensures RouteOf(specs, call).Serial? || RouteOf(specs, call).Detector?
    ensures RouteOf(specs, call).Detector? <==> IsDetector(specs, call)
    ensures RouteOf(specs, call).Detector? ==>
      var a := RouteOf(specs, call).access;
      |a.resources| == 1 && '\0' !in a.domain && forall domain, asset :: Detects(call, domain, asset) <==> a.domain == domain && a.resources == [asset]
  {
    DetectsOne(call);
  }

  /** What a single writing access says. */
  predicate WritesOne(f: seq<Access>) { |f| == 1 && f[0].writeResource && |f[0].resources| == 1 }

  /** The call detects exactly the one resource of its one access, or nothing. */
  ghost predicate DetectsAsWritten(call: ToolCall) {
    var (f, valid) := Footprint(call);
    if valid && WritesOne(f) then
      '\0' !in f[0].domain
      && forall domain, asset :: Detects(call, domain, asset) <==> f[0].domain == domain && asset == f[0].resources[0]
    else forall domain, asset :: !Detects(call, domain, asset)
  }

  lemma DeepSearchDetects(call: ToolCall)
    requires call.name == "shot.deep_search"
    ensures DetectsAsWritten(call)
  {
    if call.arguments.Fields? && call.arguments.shotAssets != [] {
      var ids := call.arguments.shotAssets;
      AllTheSame(ids);
      assert ids[0] in ids;
      ScopedIs(ids);
      var u := Unique(ids, {});
      assert |StableSort(u, StringLess)| == |u|;
      forall asset | Detects(call, "shots", asset) ensures asset == ids[0] {}
    }
  }

  lemma OthersDetect(call: ToolCall)
    requires call.name != "shot.deep_search"
    ensures DetectsAsWritten(call)
  {
  }

  lemma DetectsOne(call: ToolCall)
    ensures var (f, valid) := Footprint(call);
      (valid && WritesOne(f)) <==> exists domain, asset :: Detects(call, domain, asset)
    ensures var (f, valid) := Footprint(call);
      valid && WritesOne(f) ==>
        '\0' !in f[0].domain && forall domain, asset :: Detects(call, domain, asset) <==> f[0].domain == domain && f[0].resources == [asset]
  {
    if call.name == "shot.deep_search" { DeepSearchDetects(call); } else { OthersDetect(call); }
    var (f, valid) := Footprint(call);
    if valid && WritesOne(f) {
      assert f[0].resources == [f[0].resources[0]];
      assert Detects(call, f[0].domain, f[0].resources[0]);
    }
  }

  // ---------------------------------------------------------------- the decision

  /** One call stores something that the other also stores, or looks at. */
  ghost predicate Disturbs(specs: map<string, Spec>, a: ToolCall, b: ToolCall) {
    exists domain, asset :: Detects(a, domain, asset) && Affected(specs, b, domain, asset)
  }

  predicate Affected(specs: map<string, Spec>, call: ToolCall, domain: string, asset: string) {
    if OnlyReads(specs, call) then LooksAt(call, domain, asset) else Detects(call, domain, asset)
  }

  lemma DetectsDomain(call: ToolCall, domain: string, asset: string)
    requires Detects(call, domain, asset)
    ensures '\0' !in domain
  {
  }

  lemma RouteWrites(specs: map<string, Spec>, call: ToolCall, k: string)
    requires IsDetector(specs, call)
    ensures Writes(RouteOf(specs, call), k) <==> exists domain, asset :: Detects(call, domain, asset) && k == Key(domain, asset)
  {
    DetectorRoute(specs, call);
    var a := RouteOf(specs, call).access;
    assert a.resources == [a.resources[0]];
    assert Detects(call, a.domain, a.resources[0]);
  }

  lemma WritesTheSame(specs: map<string, Spec>, a: ToolCall, b: ToolCall, k: string)
    requires IsDetector(specs, a) && IsDetector(specs, b) && Writes(RouteOf(specs, a), k) && Writes(RouteOf(specs, b), k)
    ensures Disturbs(specs, a, b)
  {
    RouteWrites(specs, a, k);
    RouteWrites(specs, b, k);
    var d, n :| Detects(a, d, n) && k == Key(d, n);
    var e, m :| Detects(b, e, m) && k == Key(e, m);
    DetectsDomain(a, d, n);
    DetectsDomain(b, e, m);
    KeysDiffer(d, n, e, m);
    assert Affected(specs, b, d, n);
  }

  lemma ReadsWritten(specs: map<string, Spec>, a: ToolCall, b: ToolCall, k: string)
    requires IsDetector(specs, a) && OnlyReads(specs, b) && Writes(RouteOf(specs, a), k)
    ensures RouteOf(specs, b).Reader?
    ensures ReadsFree(RouteOf(specs, b).keys, k) <==> !Disturbs(specs, a, b)
  {
    RouteWrites(specs, a, k);
    DetectorRoute(specs, a);
    var d, n :| Detects(a, d, n) && k == Key(d, n);
    DetectsDomain(a, d, n);
    CutKey(d, n);
    ReaderKeys(specs, b, d, n);
    assert Affected(specs, b, d, n) <==> LooksAt(b, d, n);
  }

  lemma Disturbing(specs: map<string, Spec>, a: ToolCall, b: ToolCall) returns (k: string)
    requires IsDetector(specs, a) && (OnlyReads(specs, b) || IsDetector(specs, b)) && Disturbs(specs, a, b)
    ensures Writes(RouteOf(specs, a), k)
    ensures RouteOf(specs, b).Reader? ==> !ReadsFree(RouteOf(specs, b).keys, k)
    ensures !RouteOf(specs, b).Reader? ==> Writes(RouteOf(specs, b), k)
  {
    var d, n :| Detects(a, d, n) && Affected(specs, b, d, n);
    k := Key(d, n);
    RouteWrites(specs, a, k);
    if OnlyReads(specs, b) {
      ReadsWritten(specs, a, b, k);
    } else {
      RouteWrites(specs, b, k);
      DetectorRoute(specs, b);
    }
  }

  /** The calls of a message may run in parallel exactly if there are any, each is a known reader or
      a detector of one asset, and no detector disturbs another call: so no reader of what was said
      in an asset runs beside the transcription of that asset, nor any check beside any. */
  lemma ParallelExactly(specs: map<string, Spec>, calls: seq<ToolCall>)
    ensures Parallel(Routes(specs, calls)) <==>
      && calls != []
      && (forall i :: 0 <= i < |calls| ==> OnlyReads(specs, calls[i]) || IsDetector(specs, calls[i]))
      && forall i, j :: 0 <= i < |calls| && 0 <= j < |calls| && i != j && IsDetector(specs, calls[i]) ==>
           !Disturbs(specs, calls[i], calls[j])
  {
    var routes := Routes(specs, calls);
    forall i | 0 <= i < |calls|
      ensures routes[i] == RouteOf(specs, calls[i])
      ensures routes[i].Reader? <==> OnlyReads(specs, calls[i])
      ensures routes[i].Detector? <==> IsDetector(specs, calls[i])
    {
      RoutesAt(specs, calls, i);
      if calls[i].name in specs && !OnlyReads(specs, calls[i]) { DetectorRoute(specs, calls[i]); }
    }
    if Parallel(routes) {
      ParallelUndisturbed(specs, calls, routes);
    } else if calls != [] && forall i :: 0 <= i < |calls| ==> OnlyReads(specs, calls[i]) || IsDetector(specs, calls[i]) {
      var i, j := UnparallelDisturbed(specs, calls, routes);
    }
  }

  ghost predicate Routed(specs: map<string, Spec>, calls: seq<ToolCall>, routes: seq<Route>) {
    |routes| == |calls| && forall i :: 0 <= i < |calls| ==>
      && routes[i] == RouteOf(specs, calls[i])
      && (routes[i].Reader? <==> OnlyReads(specs, calls[i])) && (routes[i].Detector? <==> IsDetector(specs, calls[i]))
  }

  lemma ParallelUndisturbed(specs: map<string, Spec>, calls: seq<ToolCall>, routes: seq<Route>)
    requires Routed(specs, calls, routes) && Parallel(routes)
    ensures forall i, j :: 0 <= i < |calls| && 0 <= j < |calls| && i != j && IsDetector(specs, calls[i]) ==>
      !Disturbs(specs, calls[i], calls[j])
  {
    forall i, j | 0 <= i < |calls| && 0 <= j < |calls| && i != j && IsDetector(specs, calls[i])
      ensures !Disturbs(specs, calls[i], calls[j])
    {
      assert !routes[i].Serial? && !routes[j].Serial?;
      if Disturbs(specs, calls[i], calls[j]) {
        var k := Disturbing(specs, calls[i], calls[j]);
      }
    }
  }

  lemma UnparallelDisturbed(specs: map<string, Spec>, calls: seq<ToolCall>, routes: seq<Route>) returns (i: nat, j: nat)
    requires Routed(specs, calls, routes) && !Parallel(routes) && calls != []
    requires forall i :: 0 <= i < |calls| ==> OnlyReads(specs, calls[i]) || IsDetector(specs, calls[i])
    ensures i < |calls| && j < |calls| && i != j && IsDetector(specs, calls[i]) && Disturbs(specs, calls[i], calls[j])
  {
    if a, b, k :| 0 <= a < b < |routes| && Writes(routes[a], k) && Writes(routes[b], k) {
      WritesTheSame(specs, calls[a], calls[b], k);
      return a, b;
    }
    var a, b, k :| 0 <= a < |routes| && 0 <= b < |routes| && Writes(routes[a], k) && routes[b].Reader?
      && !ReadsFree(routes[b].keys, k);
    ReadsWritten(specs, calls[a], calls[b], k);
    i, j := a, b;
  }
}
