/**
 * Which tool calls of one message may run in parallel, and why any order of them is as
 * good as any other.
 */
module ToolRouter {
  import opened Sorting
  import opened LockOrder
  import opened IndexedResourceCoordinators

  datatype Effect = ReadOnly | Reversible | Irreversible
  datatype Family = Detect | OtherFamily
  datatype Spec = Spec(family: Family, effect: Effect)

  /** A call's decoded arguments, with the space around strings trimmed; "" stands for a
      missing or ill-typed string, and an ill-typed list element. */
  datatype Arguments =
    | Malformed
    | Fields(assetId: string, assetIds: seq<string>, shotAssets: seq<string>, check: string)

  datatype ToolCall = ToolCall(name: string, arguments: Arguments)

  // ---------------------------------------------------------------- footprints

  function Everything(domain: string): Access { Access(domain, [], false, true) }

  function Wildcard(name: string): seq<Access> {
    if name == "speech.search" then [Everything("speech")]
    else if name == "shot.search" then [Everything("shots"), Everything("speech")]
    else if name == "shot.deep_search" then [Access("shots", [], true, true)]
    else if name == "timeline.check" || name == "preview.check" then [Everything("speech")]
    else []
  }

  predicate AllNamed(ids: seq<string>) { ids != [] && "" !in ids }

  /** Without repetitions, in order of first appearance. */
  function Unique(ids: seq<string>, seen: set<string>): seq<string> {
    if ids == [] then []
    else if ids[0] in seen then Unique(ids[1..], seen)
    else [ids[0]] + Unique(ids[1..], seen + {ids[0]})
  }

  function Footprint(call: ToolCall): (seq<Access>, bool) {
    var name := call.name;
    match call.arguments
    case Malformed => (Wildcard(name), false)
    case Fields(assetId, assetIds, shotAssets, check) =>
      if name == "media.detect_shots" then
        if assetId != "" then ([Access("shots", [assetId], true, false)], true) else ([], false)
      else if name == "speech.transcribe" then
        if assetId != "" then ([Access("speech", [assetId], true, false)], true) else ([], false)
      else if name == "speech.search" then
        if assetId != "" then ([Access("speech", [assetId], false, false)], true)
        else ([Everything("speech")], true)
      else if name == "shot.search" then
        var scoped := AllNamed(assetIds);
        var resources := if scoped then StableSort(assetIds, StringLess) else [];
        ([Access("shots", resources, false, !scoped), Access("speech", resources, false, !scoped)], true)
      else if name == "shot.deep_search" then
        if !AllNamed(shotAssets) then ([], false)
        else ([Access("shots", StableSort(Unique(shotAssets, {}), StringLess), true, false)], true)
      else if name == "timeline.check" then ([Everything("speech")], true)
      else if name == "preview.check" then
        if check == "visual" then ([Everything("speech")], true) else ([], true)
      else ([], true)
  }

  /** resourceKeys. */
  function Keys(a: Access): seq<string> {
    if a.allResources then [Key(a.domain, "*")]
    else seq(|a.resources|, i requires 0 <= i < |a.resources| => Key(a.domain, a.resources[i]))
  }

  /** Everything before the first separator, as strings.Cut returns it. */
  function CutDomain(key: string): string {
    if key == [] || key[0] == '\0' then [] else [key[0]] + CutDomain(key[1..])
  }

  lemma {:induction false} CutKey(domain: string, name: string)
    requires '\0' !in domain
    ensures CutDomain(Key(domain, name)) == domain
  {
    if domain != [] {
      assert Key(domain, name)[1..] == Key(domain[1..], name);
      CutKey(domain[1..], name);
    }
  }

  // ---------------------------------------------------------------- canRunParallel

  /** What the router makes of one call: a reader with its keys, a detector that writes the one
      resource of its one access, or a call that must run alone. */
  datatype Route = Reader(keys: set<string>) | Detector(access: Access) | Serial

  function DetectKey(a: Access): string
    requires |a.resources| == 1
  {
    Key(a.domain, a.resources[0])
  }

  function AllKeys(footprint: seq<Access>): set<string> {
    set a, k | a in footprint && k in Keys(a) :: k
  }

  function RouteOf(specs: map<string, Spec>, call: ToolCall): Route {
    if call.name !in specs then Serial
    else
      var spec := specs[call.name];
      var (footprint, valid) := Footprint(call);
      if spec.effect == ReadOnly then Reader(AllKeys(footprint))
      else if spec.family != Detect || spec.effect != Reversible then Serial
      else if !valid || |footprint| != 1 || !footprint[0].writeResource || |footprint[0].resources| != 1
      then Serial
      else Detector(footprint[0])
  }

  function Routes(specs: map<string, Spec>, calls: seq<ToolCall>): (r: seq<Route>)
    ensures |r| == |calls|
  {
    if calls == [] then [] else [RouteOf(specs, calls[0])] + Routes(specs, calls[1..])
  }

  lemma {:induction false} RoutesAt(specs: map<string, Spec>, calls: seq<ToolCall>, i: nat)
    requires i < |calls|
    ensures Routes(specs, calls)[i] == RouteOf(specs, calls[i])
    ensures Routes(specs, calls)[i].Detector? ==> |Routes(specs, calls)[i].access.resources| == 1
  {
    if i > 0 {
      RoutesAt(specs, calls[1..], i - 1);
    }
  }

  predicate Writes(r: Route, key: string) {
    r.Detector? && |r.access.resources| == 1 && DetectKey(r.access) == key
  }

  /** No detected key, and no wildcard of its domain, is among the keys read. */
  predicate ReadsFree(read: set<string>, key: string) {
    key !in read && Key(CutDomain(key), "*") !in read
  }

  /** The declarative form: known readers and detectors only, no key detected twice, none
      both detected and read, by name or by wildcard. */
  ghost predicate Parallel(routes: seq<Route>) {
    && routes != []
    && (forall i :: 0 <= i < |routes| ==> !routes[i].Serial?)
    && (forall i, j, k :: 0 <= i < j < |routes| && Writes(routes[i], k) ==> !Writes(routes[j], k))
    && (forall i, j, k :: 0 <= i < |routes| && 0 <= j < |routes| && Writes(routes[i], k) && routes[j].Reader? ==>
          ReadsFree(routes[j].keys, k))
  }

  method Classify(specs: map<string, Spec>, calls: seq<ToolCall>, n: nat) returns (r: Route)
    requires n < |calls|
    ensures r == Routes(specs, calls)[n] && (r.Detector? ==> |r.access.resources| == 1)
  {
    RoutesAt(specs, calls, n);
    var call := calls[n];
    if call.name !in specs {
      return Serial;
    }
    var spec := specs[call.name];
    var (footprint, valid) := Footprint(call);
    if spec.effect == ReadOnly {
      return Reader(AllKeys(footprint));
    }
    if spec.family != Detect || spec.effect != Reversible {
      return Serial;
    }
    if !valid || |footprint| != 1 || !footprint[0].writeResource || |footprint[0].resources| != 1 {
      return Serial;
    }
    r := Detector(footprint[0]);
  }

  /** The second loop of canRunParallel. */
  method NoReadConflict(detected: set<string>, read: set<string>) returns (ok: bool)
    ensures ok <==> forall k :: k in detected ==> ReadsFree(read, k)
  {
    var rest := detected;
    while rest != {}
      invariant rest <= detected
      invariant forall k :: k in detected - rest ==> ReadsFree(read, k)
      decreases |rest|
    {
      var k :| k in rest;
      if k in read || Key(CutDomain(k), "*") in read {
        assert !ReadsFree(read, k);
        return false;
      }
      rest := rest - {k};
    }
    ok := true;
  }

  /** What the first loop has collected from the calls before `n`. */
  ghost predicate Collected(routes: seq<Route>, n: nat, detected: set<string>, read: set<string>)
    requires n <= |routes|
  {
    && (forall i :: 0 <= i < n ==> !routes[i].Serial?)
    && (forall k :: k in read <==> exists i :: 0 <= i < n && routes[i].Reader? && k in routes[i].keys)
    && (forall k :: k in detected <==> exists i :: 0 <= i < n && Writes(routes[i], k))
    && (forall i, j, k :: 0 <= i < j < n && Writes(routes[i], k) ==> !Writes(routes[j], k))
  }

  lemma AllCollected(routes: seq<Route>, detected: set<string>, read: set<string>)
    requires routes != [] && Collected(routes, |routes|, detected, read)
    ensures Parallel(routes) <==> forall k :: k in detected ==> ReadsFree(read, k)
  {
    if forall k :: k in detected ==> ReadsFree(read, k) {
      forall i, j, k | 0 <= i < |routes| && 0 <= j < |routes| && Writes(routes[i], k) && routes[j].Reader?
        ensures ReadsFree(routes[j].keys, k)
      {
        assert k in detected;
      }
    }
    if Parallel(routes) {
      forall k | k in detected ensures ReadsFree(read, k) {
        var i :| 0 <= i < |routes| && Writes(routes[i], k);
        forall j | 0 <= j < |routes| && routes[j].Reader?
          ensures k !in routes[j].keys && Key(CutDomain(k), "*") !in routes[j].keys
        {
          assert ReadsFree(routes[j].keys, k);
        }
      }
    }
  }

  lemma CollectReader(routes: seq<Route>, n: nat, detected: set<string>, read: set<string>)
    requires n < |routes| && Collected(routes, n, detected, read) && routes[n].Reader?
    ensures Collected(routes, n + 1, detected, read + routes[n].keys)
  {
    assert forall k :: !Writes(routes[n], k);
    forall k ensures k in read + routes[n].keys <==> exists i :: 0 <= i < n + 1 && routes[i].Reader? && k in routes[i].keys {
    }
  }

  lemma CollectWriter(routes: seq<Route>, n: nat, detected: set<string>, read: set<string>, key: string)
    requires n < |routes| && Collected(routes, n, detected, read) && routes[n].Detector?
    requires |routes[n].access.resources| == 1 && key == DetectKey(routes[n].access)
    ensures key in detected ==> !Parallel(routes)
    ensures key !in detected ==> Collected(routes, n + 1, detected + {key}, read)
  {
    assert forall k :: Writes(routes[n], k) <==> k == key;
    if key in detected {
      var i :| 0 <= i < n && Writes(routes[i], key);
    }
  }

  method CanRunParallel(specs: map<string, Spec>, calls: seq<ToolCall>) returns (parallel: bool)
    ensures parallel <==> Parallel(Routes(specs, calls))
  {
    ghost var routes := Routes(specs, calls);
    if |calls| == 0 {
      return false;
    }
    var detected: set<string> := {};
    var read: set<string> := {};
    for n := 0 to |calls|
      invariant Collected(routes, n, detected, read)
    {
      var route := Classify(specs, calls, n);
      if route.Serial? {
        return false;
      }
      if route.Reader? {
        CollectReader(routes, n, detected, read);
        read := read + route.keys;
        continue;
      }
      var resource := DetectKey(route.access);
      CollectWriter(routes, n, detected, read, resource);
      if resource in detected {
        return false;
      }
      detected := detected + {resource};
    }
    AllCollected(routes, detected, read);
    parallel := NoReadConflict(detected, read);
  }
}
