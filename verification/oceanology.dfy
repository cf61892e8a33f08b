// AWaterPhysics_Oceanology: water physics on the ocean of the Oceanology plugin. Which class
// and which wave-height function it looks for, and whether the wave height may be fetched
// from several threads at once, depend on the plugin's version. Actors are added while they
// overlap one of the ocean's bounds actors, through a per-actor overlap tracker.

module Oceanology {
  import opened Vectors
  import opened Engine
  import opened WaterPhysicsTypes
  import opened ComponentFilters
  import opened SettingsComponent
  import opened SceneComponent
  import opened PhysicsActor
  import opened ActorBatches
  import opened WaterBodies
  import opened PluginVersions

  /** The Oceanology water-surface class, by plugin version. */
  const WaterSurfaceClassPath4: string := "/Oceanology_Plugin/Advanced/Blueprints/Oceanology/Mode/BP_Oceanology_Infinity.BP_Oceanology_Infinity_C"
  const WaterSurfaceClassPath51: string := "/Oceanology_Plugin/Design/Ocean/Blueprints/Ocean/Oceanology.Oceanology_C"
  const WaterSurfaceClassPath517: string := "/Script/Oceanology_Plugin.OceanologyWaterParent"

  /** The wave-height function of the water-surface class, by plugin version. */
  const WaveHeightFunctionName4: string := "Get Wave Height"
  const WaveHeightFunctionName517: string := "GetWaveHeightAtLocation"

  /** Strict lexicographic order on version numbers of equal length. */
  predicate LexLess(a: seq<int>, b: seq<int>)
    requires |a| == |b|
  {
    |a| > 0 && (a[0] < b[0] || (a[0] == b[0] && LexLess(a[1..], b[1..])))
  }

  /** Major and minor, and the full version number, as sequences. */
  function MajorMinor(v: Version): seq<int> {
    [v.major, v.minor]
  }

  function Triple(v: Version): seq<int> {
    [v.major, v.minor, v.patch]
  }

  /** Versions before 5.1, and the 5.1 releases before 5.1.7. */
  predicate Before51(v: Version) {
    v.major <= 4 || (v.major == 5 && v.minor < 1)
  }

  predicate Before517Of51(v: Version) {
    v.major == 5 && v.minor == 1 && v.patch < 7
  }

  /** GetOceanologyWaterSurfaceClassName. */
  function WaterSurfaceClassName(v: Version): string {
    if Before51(v) then WaterSurfaceClassPath4
    else if Before517Of51(v) then WaterSurfaceClassPath51
    else WaterSurfaceClassPath517
  }

  /** OceanologyGetWaveHeightFunctionName. */
  function WaveHeightFunctionName(v: Version): string {
    if Before51(v) then WaveHeightFunctionName4
    else if Before517Of51(v) then WaveHeightFunctionName4
    else WaveHeightFunctionName517
  }

  /** GetSupportsParallelWaterHeightFetching. */
  predicate SupportsParallelWaterHeightFetching(v: Version) {
    v.major > 5 || (v.major == 5 && v.minor > 1) || (v.major == 5 && v.minor == 1 && v.patch > 6)
  }

  lemma ClassPathsDiffer()
    ensures WaterSurfaceClassPath4 != WaterSurfaceClassPath51 && WaterSurfaceClassPath4 != WaterSurfaceClassPath517
    ensures WaterSurfaceClassPath51 != WaterSurfaceClassPath517 && WaveHeightFunctionName4 != WaveHeightFunctionName517
  {
    assert |WaterSurfaceClassPath4| != |WaterSurfaceClassPath51|;
    assert |WaterSurfaceClassPath4| != |WaterSurfaceClassPath517|;
    assert |WaterSurfaceClassPath51| != |WaterSurfaceClassPath517|;
    assert |WaveHeightFunctionName4| != |WaveHeightFunctionName517|;
  }

  /** LexLess on pairs and triples, written out. */
  lemma LexLessPair(a: int, b: int, x: int, y: int)
    ensures LexLess([a, b], [x, y]) <==> a < x || (a == x && b < y)
  {
    assert [a, b][1..] == [b] && [x, y][1..] == [y];
    assert [b][1..] == [] && [y][1..] == [];
    assert !LexLess([b][1..], [y][1..]);
    assert LexLess([b], [y]) <==> b < y;
  }

  lemma LexLessTriple(a: int, b: int, c: int, x: int, y: int, z: int)
    ensures LexLess([a, b, c], [x, y, z]) <==> a < x || (a == x && (b < y || (b == y && c < z)))
  {
    assert [a, b, c][1..] == [b, c] && [x, y, z][1..] == [y, z];
    LexLessPair(b, c, y, z);
  }

  /** The water-surface class is the original blueprint exactly for versions below 5.1, the
      5.1 blueprint exactly for versions from 5.1 up to but not including 5.1.7, and the native
      class from 5.1.7 on. */
  lemma WaterSurfaceClassByVersion(v: Version)
    ensures WaterSurfaceClassName(v) == WaterSurfaceClassPath4 <==> LexLess(MajorMinor(v), [5, 1])
    ensures WaterSurfaceClassName(v) == WaterSurfaceClassPath51 <==>
      !LexLess(MajorMinor(v), [5, 1]) && LexLess(Triple(v), [5, 1, 7])
    ensures WaterSurfaceClassName(v) == WaterSurfaceClassPath517 <==> !LexLess(Triple(v), [5, 1, 7])
  {
    ClassPathsDiffer();
    LexLessPair(v.major, v.minor, 5, 1);
    LexLessTriple(v.major, v.minor, v.patch, 5, 1, 7);
  }

  /** The wave-height function is "Get Wave Height" for every version below 5.1.7 and
      "GetWaveHeightAtLocation" from then on. */
  lemma WaveHeightFunctionByVersion(v: Version)
    ensures WaveHeightFunctionName(v) == WaveHeightFunctionName517 <==> !LexLess(Triple(v), [5, 1, 7])
    ensures WaveHeightFunctionName(v) == WaveHeightFunctionName4 <==> LexLess(Triple(v), [5, 1, 7])
  {
    ClassPathsDiffer();
    LexLessTriple(v.major, v.minor, v.patch, 5, 1, 7);
  }

  /** Parallel fetching is supported exactly for versions after 5.1.6, which are exactly the
      versions that use the native water-surface class and GetWaveHeightAtLocation. */
  lemma ParallelFetchingByVersion(v: Version)
    ensures SupportsParallelWaterHeightFetching(v) <==> LexLess([5, 1, 6], Triple(v))
    ensures SupportsParallelWaterHeightFetching(v) <==> WaterSurfaceClassName(v) == WaterSurfaceClassPath517
    ensures SupportsParallelWaterHeightFetching(v) <==> WaveHeightFunctionName(v) == WaveHeightFunctionName517
  {
    ClassPathsDiffer();
    LexLessTriple(5, 1, 6, v.major, v.minor, v.patch);
  }

  /** From the plugin's VersionName "major.minor.patch" to the version gating: parallel
      fetching is on exactly when the written version is after 5.1.6. */
  lemma ParallelFetchingFromVersionName(current: Version, major: nat, minor: nat, patch: nat)
    ensures SupportsParallelWaterHeightFetching(ParseVersion(current, Show(major) + "." + Show(minor) + "." + Show(patch)))
      <==> LexLess([5, 1, 6], [major, minor, patch])
  {
    ParseVersionRoundTrip(current, major, minor, patch);
    ParallelFetchingByVersion(Version(major, minor, patch));
  }

  /** ActorOverlapTracker: for an actor, the array of actors recorded for it. */
  type Tracker = map<ActorId, seq<ActorId>>

  /** FindOrAdd's view of the tracker: an actor without an entry has an empty array. */
  function Entry(t: Tracker, key: ActorId): seq<ActorId> {
    if key in t then t[key] else []
  }

  /** Recording `stored` in the entry of `key` with AddUnique: the new tracker, and whether
      the entry grew. */
  function TrackBegin(t: Tracker, key: ActorId, stored: ActorId): (Tracker, bool) {
    var e := AddUnique(Entry(t, key), stored);
    (t[key := e], |e| != |Entry(t, key)|)
  }

  /** Removing `stored` from the entry of `key`: the new tracker, and whether the entry is
      now empty. */
  function TrackEnd(t: Tracker, key: ActorId, stored: ActorId): (Tracker, bool) {
    var e := Without(Entry(t, key), stored);
    (t[key := e], |e| == 0)
  }

  /** The tracker and the water-physics state of an Oceanology actor. */
  datatype OceanState = OceanState(tracker: Tracker, actor: ActorState)

  /** OnActorBeginOverlapBoundsActor as written: the entry of the other actor records the
      other actor itself, and the other actor is added to the water when the entry grew. */
  function AsWrittenBeginOverlap(s: OceanState, world: World, overlapped: ActorId, other: ActorId, filters: seq<WaterPhysicsFilter>,
                                 settingsData: map<ComponentId, WaterPhysicsSettingsComponent>, excludeClasses: seq<ClassId>,
                                 blueprintFilter: ActorId -> bool): OceanState
    requires SettingsKnown(world, settingsData, other)
  {
    var (t, grew) := TrackBegin(s.tracker, other, other);
    OceanState(t, if grew then AfterAdd(s.actor, world, other, filters, settingsData, excludeClasses, blueprintFilter) else s.actor)
  }

  /** OnActorEndOverlapBoundsActor as written: the other actor is dropped from its own entry,
      and removed from the water at once when the entry is empty. */
  function AsWrittenEndOverlap(s: OceanState, world: World, overlapped: ActorId, other: ActorId): OceanState {
    var (t, empty) := TrackEnd(s.tracker, other, other);
    OceanState(t, if empty then AfterRemove(s.actor, world, other, -1.0) else s.actor)
  }

  /** OnActorBeginOverlapBoundsActor as intended: the entry of the other actor records the
      overlapped bounds actor, and the other actor is added to the water when the entry
      grew. */
  function AfterBeginOverlap(s: OceanState, world: World, overlapped: ActorId, other: ActorId, filters: seq<WaterPhysicsFilter>,
                             settingsData: map<ComponentId, WaterPhysicsSettingsComponent>, excludeClasses: seq<ClassId>,
                             blueprintFilter: ActorId -> bool): OceanState
    requires SettingsKnown(world, settingsData, other)
  {
    var (t, grew) := TrackBegin(s.tracker, other, overlapped);
    OceanState(t, if grew then AfterAdd(s.actor, world, other, filters, settingsData, excludeClasses, blueprintFilter) else s.actor)
  }

  /** OnActorEndOverlapBoundsActor as intended: the overlapped bounds actor is dropped from
      the entry of the other actor, which is removed from the water at once when it overlaps
      no bounds actor any more. */
  function AfterEndOverlap(s: OceanState, world: World, overlapped: ActorId, other: ActorId): OceanState {
    var (t, empty) := TrackEnd(s.tracker, other, overlapped);
    OceanState(t, if empty then AfterRemove(s.actor, world, other, -1.0) else s.actor)
  }

  /** The begin-overlap handler run on each of `others`, in order. */
  function AfterBeginOverlaps(s: OceanState, world: World, overlapped: ActorId, others: seq<ActorId>, filters: seq<WaterPhysicsFilter>,
                              settingsData: map<ComponentId, WaterPhysicsSettingsComponent>, excludeClasses: seq<ClassId>,
                              blueprintFilter: ActorId -> bool): OceanState
    requires forall k :: 0 <= k < |others| ==> SettingsKnown(world, settingsData, others[k])
  {
    if |others| == 0 then s
    else AfterBeginOverlap(AfterBeginOverlaps(s, world, overlapped, others[..|others| - 1], filters, settingsData, excludeClasses, blueprintFilter),
                           world, overlapped, others[|others| - 1], filters, settingsData, excludeClasses, blueprintFilter)
  }

  /** Every entry of an as-written tracker is empty or holds its own key. */
  predicate SelfTracked(t: Tracker) {
    forall x :: x in t ==> t[x] == [] || t[x] == [x]
  }

  /** The as-written handlers keep every entry empty or holding its own key; begin-overlap
      adds the actor exactly when its entry was empty, and end-overlap always removes it,
      however many bounds actors it still overlaps. */
  lemma AsWrittenTrackerHoldsSelf(s: OceanState, world: World, overlapped: ActorId, other: ActorId, filters: seq<WaterPhysicsFilter>,
                                  settingsData: map<ComponentId, WaterPhysicsSettingsComponent>, excludeClasses: seq<ClassId>,
                                  blueprintFilter: ActorId -> bool)
    requires SelfTracked(s.tracker) && SettingsKnown(world, settingsData, other)
    ensures var r := AsWrittenBeginOverlap(s, world, overlapped, other, filters, settingsData, excludeClasses, blueprintFilter);
      SelfTracked(r.tracker) &&
      r.actor == if Entry(s.tracker, other) == [] then AfterAdd(s.actor, world, other, filters, settingsData, excludeClasses, blueprintFilter) else s.actor
    ensures var r := AsWrittenEndOverlap(s, world, overlapped, other);
      SelfTracked(r.tracker) && r.actor == AfterRemove(s.actor, world, other, -1.0)
  {
    var e := Entry(s.tracker, other);
    assert e == [] || e == [other];
    if e == [other] {
      assert Without(e, other) == Without([], other);
    }
  }

  /** Three overlap events showing the as-written tracker removing an actor that still
      overlaps a bounds actor: the actor enters bounds actors b1 and b2 and leaves b1, and the
      end-overlap removes it from the water although it is still inside b2. */
  lemma AsWrittenLeavesWhileInsideOtherBounds(b1: ActorId, b2: ActorId, x: ActorId)
    requires b1 != b2
    ensures var t1 := TrackBegin(map[], x, x).0;
      var t2 := TrackBegin(t1, x, x).0;
      TrackEnd(t2, x, x).1
  {
    var t1 := TrackBegin(map[], x, x).0;
    assert Entry(t1, x) == [x];
    var t2 := TrackBegin(t1, x, x).0;
    assert Entry(t2, x) == [x];
    assert Without([x], x) == [];
  }

  /** The tracker the bounds-actor handlers evidently intend: the entry of an actor holds
      exactly the bounds actors it overlaps. */
  ghost predicate Tracks(t: Tracker, overlaps: set<(ActorId, ActorId)>) {
    forall b: ActorId, x: ActorId :: b in Entry(t, x) <==> (b, x) in overlaps
  }

  /** Begin-overlap of `x` with bounds actor `b`, recording the overlapped bounds actor: the
      tracker follows the overlap, and the entry grows exactly when the pair is new. */
  lemma IntendedBeginTracks(t: Tracker, overlaps: set<(ActorId, ActorId)>, b: ActorId, x: ActorId)
    requires Tracks(t, overlaps)
    ensures Tracks(TrackBegin(t, x, b).0, overlaps + {(b, x)})
    ensures TrackBegin(t, x, b).1 <==> (b, x) !in overlaps
  {
    var t' := TrackBegin(t, x, b).0;
    forall b': ActorId, x': ActorId ensures b' in Entry(t', x') <==> (b', x') in overlaps + {(b, x)} {
      if x' != x {
        assert Entry(t', x') == Entry(t, x');
      }
    }
  }

  /** End-overlap of `x` with bounds actor `b`, recording the overlapped bounds actor: the
      tracker follows the overlap, and the actor is removed from the water exactly when it
      no longer overlaps any bounds actor. */
  lemma IntendedEndTracks(t: Tracker, overlaps: set<(ActorId, ActorId)>, b: ActorId, x: ActorId)
    requires Tracks(t, overlaps)
    ensures Tracks(TrackEnd(t, x, b).0, overlaps - {(b, x)})
    ensures TrackEnd(t, x, b).1 <==> forall b' :: (b', x) !in overlaps - {(b, x)}
  {
    var t' := TrackEnd(t, x, b).0;
    var e := Without(Entry(t, x), b);
    WithoutCorrect(Entry(t, x), b, (a: ActorId) => 0);
    forall b': ActorId, x': ActorId ensures b' in Entry(t', x') <==> (b', x') in overlaps - {(b, x)} {
      if x' != x {
        assert Entry(t', x') == Entry(t, x');
      }
    }
    if |e| != 0 {
      assert e[0] in Entry(t', x);
    }
  }

  /** The intended handlers keep the tracker equal to the overlaps: a begin-overlap adds the
      actor to the water exactly when it is a new overlap, and an end-overlap removes it
      exactly when the actor overlaps no bounds actor any more. */
  lemma {:induction false} HandlersFollowOverlaps(s: OceanState, overlaps: set<(ActorId, ActorId)>, world: World, overlapped: ActorId,
                                                  other: ActorId, filters: seq<WaterPhysicsFilter>,
                                                  settingsData: map<ComponentId, WaterPhysicsSettingsComponent>, excludeClasses: seq<ClassId>,
                                                  blueprintFilter: ActorId -> bool)
    requires Tracks(s.tracker, overlaps) && SettingsKnown(world, settingsData, other)
    ensures var r := AfterBeginOverlap(s, world, overlapped, other, filters, settingsData, excludeClasses, blueprintFilter);
      Tracks(r.tracker, overlaps + {(overlapped, other)}) &&
      r.actor == if (overlapped, other) !in overlaps then AfterAdd(s.actor, world, other, filters, settingsData, excludeClasses, blueprintFilter) else s.actor
    ensures var r := AfterEndOverlap(s, world, overlapped, other);
      Tracks(r.tracker, overlaps - {(overlapped, other)}) &&
      r.actor == if forall b :: (b, other) !in overlaps - {(overlapped, other)} then AfterRemove(s.actor, world, other, -1.0) else s.actor
  {
    IntendedBeginTracks(s.tracker, overlaps, overlapped, other);
    IntendedEndTracks(s.tracker, overlaps, overlapped, other);
  }

  /** The same three events with the overlapped bounds actor recorded: the actor stays in
      the water while it is inside b2. */
  lemma IntendedStaysWhileInsideOtherBounds(b1: ActorId, b2: ActorId, x: ActorId)
    requires b1 != b2
    ensures var t1 := TrackBegin(map[], x, b1).0;
      var t2 := TrackBegin(t1, x, b2).0;
      !TrackEnd(t2, x, b1).1
  {
    var t0: Tracker := map[];
    assert Tracks(t0, {});
    IntendedBeginTracks(t0, {}, b1, x);
    var t1 := TrackBegin(t0, x, b1).0;
    IntendedBeginTracks(t1, {(b1, x)}, b2, x);
    var t2 := TrackBegin(t1, x, b2).0;
    IntendedEndTracks(t2, {(b1, x), (b2, x)}, b1, x);
    assert (b2, x) in {(b1, x), (b2, x)} - {(b1, x)};
  }

  /** The water information Oceanology answers: none unless the water actor and the
      wave-height function are valid, and otherwise the point straight above or below the
      query point at the height the wave-height function returned (`waveHeight`), an upward
      normal and still water. */
  function OceanologyWaterInfo(waterValid: bool, functionValid: bool, location: Vec3, waveHeight: Vec3): (r: WaterInfoResult)
    ensures !(waterValid && functionValid) ==> r == DefaultWaterInfo
    ensures waterValid && functionValid ==>
      r.waterSurfaceLocation.x == location.x && r.waterSurfaceLocation.y == location.y &&
      r.waterSurfaceLocation.z == waveHeight.z && r.waterSurfaceNormal == UpVector && r.waterVelocity == Zero
  {
    if !waterValid || !functionValid then DefaultWaterInfo
    else WaterInfoResult(Vec3(location.x, location.y, waveHeight.z), UpVector, Zero)
  }

  /** AWaterPhysics_Oceanology. The per-thread copies of the water actor are not modelled. */
  class WaterPhysicsOceanology {
    const base: WaterPhysicsActor
    var actorOverlapTracker: Tracker
    /** OceanologyWater. */
    var oceanologyWater: Option<ActorId>
    /** Whether GetWaveHightFunction holds a function. */
    var waveHeightFunctionFound: bool
    var supportsParallelWaterHeightFetching: bool
    /** The bounds actors whose overlap events this actor handles. */
    var boundActors: seq<ActorId>

    ghost predicate Valid()
      reads this, base, base.sceneComponent, base.sceneComponent.scene
    {
      base.Valid()
    }

    function Snapshot(): OceanState
      reads this, base, base.sceneComponent.scene
    {
      OceanState(actorOverlapTracker, base.State())
    }

    constructor()
      ensures Valid() && fresh(base) && fresh(base.sceneComponent) && fresh(base.sceneComponent.scene)
      ensures Snapshot() == OceanState(map[], ActorState(map[], map[], {}, [])) && base.filters == []
      ensures oceanologyWater.None? && !waveHeightFunctionFound && !supportsParallelWaterHeightFetching && boundActors == []
    {
      base := new WaterPhysicsActor();
      actorOverlapTracker := map[];
      oceanologyWater := None;
      waveHeightFunctionFound := false;
      supportsParallelWaterHeightFetching := false;
      boundActors := [];
    }

    /** BeginPlay: every initially simulated actor is added to the water, in order; the
        handlers are bound to every valid bounds actor; the wave-height function is looked up
        by the class and function names of `version` (`functionExists` stands for the class
        loader and the function lookup), and parallel fetching is set from `version`. */
    method BeginPlay(world: World, version: Version, initiallySimulated: seq<ActorId>, oceanBounds: seq<ActorId>,
                     functionExists: (string, string) -> bool, settingsData: map<ComponentId, WaterPhysicsSettingsComponent>,
                     excludeClasses: seq<ClassId>, blueprintFilter: ActorId -> bool)
      requires Valid() && forall k :: 0 <= k < |initiallySimulated| ==> SettingsKnown(world, settingsData, initiallySimulated[k])
      modifies this`boundActors, this`waveHeightFunctionFound, this`supportsParallelWaterHeightFetching, base, base.sceneComponent.scene
      ensures Valid() && base.filters == old(base.filters)
      ensures base.State() == AddAll(old(base.State()), world, initiallySimulated, base.filters, settingsData, excludeClasses, blueprintFilter)
      ensures boundActors == old(boundActors) + ValidActors(world, oceanBounds)
      ensures waveHeightFunctionFound == functionExists(WaterSurfaceClassName(version), WaveHeightFunctionName(version))
      ensures supportsParallelWaterHeightFetching == SupportsParallelWaterHeightFetching(version)
    {
      AddInitiallySimulated(world, initiallySimulated, settingsData, excludeClasses, blueprintFilter);
      BindBoundsActors(world, oceanBounds);
      waveHeightFunctionFound := functionExists(WaterSurfaceClassName(version), WaveHeightFunctionName(version));
      supportsParallelWaterHeightFetching := SupportsParallelWaterHeightFetching(version);
    }

    /** The loop of BeginPlay over InitiallySimulatedActors. */
    method AddInitiallySimulated(world: World, actors: seq<ActorId>, settingsData: map<ComponentId, WaterPhysicsSettingsComponent>,
                                 excludeClasses: seq<ClassId>, blueprintFilter: ActorId -> bool)
      requires Valid() && forall k :: 0 <= k < |actors| ==> SettingsKnown(world, settingsData, actors[k])
      modifies base, base.sceneComponent.scene
      ensures Valid() && base.filters == old(base.filters)
      ensures base.State() == AddAll(old(base.State()), world, actors, base.filters, settingsData, excludeClasses, blueprintFilter)
    {
      for k := 0 to |actors|
        invariant Valid() && base.filters == old(base.filters)
        invariant base.State() == AddAll(old(base.State()), world, actors[..k], base.filters, settingsData, excludeClasses, blueprintFilter)
      {
        base.AddActorToWater(world, actors[k], settingsData, excludeClasses, blueprintFilter);
        assert actors[..k + 1][..k] == actors[..k];
      }
      assert actors[..|actors|] == actors;
    }

    /** The loop of BeginPlay over OceanBoundsActors: the handlers are bound to each valid
        one. */
    method BindBoundsActors(world: World, oceanBounds: seq<ActorId>)
      modifies this`boundActors
      ensures boundActors == old(boundActors) + ValidActors(world, oceanBounds)
    {
      for k := 0 to |oceanBounds|
        invariant boundActors == old(boundActors) + ValidActors(world, oceanBounds[..k])
      {
        assert oceanBounds[..k + 1][..k] == oceanBounds[..k];
        if world.ActorValid(oceanBounds[k]) {
          boundActors := boundActors + [oceanBounds[k]];
        }
      }
      assert oceanBounds[..|oceanBounds|] == oceanBounds;
    }

    /** The timer BeginPlay sets for a bounds actor: unless the bounds actor is gone, the
        begin-overlap handler runs for every actor overlapping it (`overlapping`, the engine's
        query), in order. */
    method OnBoundsActorTimer(world: World, boundsActor: ActorId, overlapping: seq<ActorId>,
                              settingsData: map<ComponentId, WaterPhysicsSettingsComponent>, excludeClasses: seq<ClassId>,
                              blueprintFilter: ActorId -> bool)
      requires Valid() && forall k :: 0 <= k < |overlapping| ==> SettingsKnown(world, settingsData, overlapping[k])
      modifies this`actorOverlapTracker, base, base.sceneComponent.scene
      ensures Valid() && base.filters == old(base.filters)
      ensures !world.ActorValid(boundsActor) ==> Snapshot() == old(Snapshot())
      ensures world.ActorValid(boundsActor) ==>
        Snapshot() == AfterBeginOverlaps(old(Snapshot()), world, boundsActor, overlapping, base.filters, settingsData, excludeClasses, blueprintFilter)
    {
      if !world.ActorValid(boundsActor) {
        return;
      }
      for k := 0 to |overlapping|
        invariant Valid() && base.filters == old(base.filters)
        invariant Snapshot() ==
          AfterBeginOverlaps(old(Snapshot()), world, boundsActor, overlapping[..k], base.filters, settingsData, excludeClasses, blueprintFilter)
      {
        OnActorBeginOverlapBoundsActor(world, boundsActor, overlapping[k], settingsData, excludeClasses, blueprintFilter);
        assert overlapping[..k + 1][..k] == overlapping[..k];
      }
      assert overlapping[..|overlapping|] == overlapping;
    }

    /** OnActorBeginOverlapBoundsActor, recording the overlapped bounds actor in the other
        actor's entry (AsWrittenBeginOverlap is the handler as written). */
    method OnActorBeginOverlapBoundsActor(world: World, overlapped: ActorId, other: ActorId,
                                          settingsData: map<ComponentId, WaterPhysicsSettingsComponent>, excludeClasses: seq<ClassId>,
                                          blueprintFilter: ActorId -> bool)
      requires Valid() && SettingsKnown(world, settingsData, other)
      modifies this`actorOverlapTracker, base, base.sceneComponent.scene
      ensures Valid() && base.filters == old(base.filters)
      ensures Snapshot() == AfterBeginOverlap(old(Snapshot()), world, overlapped, other, base.filters, settingsData, excludeClasses, blueprintFilter)
    {
      var boundsActors := Entry(actorOverlapTracker, other);
      var numActors := |boundsActors|;
      boundsActors := AddUnique(boundsActors, overlapped);
      actorOverlapTracker := actorOverlapTracker[other := boundsActors];
      if numActors != |boundsActors| {
        base.AddActorToWater(world, other, settingsData, excludeClasses, blueprintFilter);
      }
    }

    /** OnActorEndOverlapBoundsActor, dropping the overlapped bounds actor from the other
        actor's entry (AsWrittenEndOverlap is the handler as written); the removal takes the
        default delay, -1, and so happens at once. */
    method OnActorEndOverlapBoundsActor(world: World, overlapped: ActorId, other: ActorId)
      requires Valid()
      modifies this`actorOverlapTracker, base, base.sceneComponent.scene
      ensures Valid() && base.filters == old(base.filters)
      ensures Snapshot() == AfterEndOverlap(old(Snapshot()), world, overlapped, other)
    {
      var boundsActors := Entry(actorOverlapTracker, other);
      boundsActors := Without(boundsActors, overlapped);
      actorOverlapTracker := actorOverlapTracker[other := boundsActors];
      if |boundsActors| == 0 {
        base.RemoveActorFromWater(world, other, -1.0);
      }
    }

    /** CalculateWaterInfo, given the height the wave-height function returns for
        `location`. */
    function CalculateWaterInfo(world: World, location: Vec3, waveHeight: Vec3): (r: WaterInfoResult)
      reads this
      ensures r == OceanologyWaterInfo(oceanologyWater.Some? && world.ActorValid(oceanologyWater.value), waveHeightFunctionFound,
                                       location, waveHeight)
    {
      if oceanologyWater.None? || !world.ActorValid(oceanologyWater.value) || !waveHeightFunctionFound then DefaultWaterInfo
      else WaterInfoResult(Vec3(location.x, location.y, waveHeight.z), UpVector, Zero)
    }
  }

  /** The valid actors of `actors`, in order. */
  function ValidActors(world: World, actors: seq<ActorId>): (r: seq<ActorId>)
    ensures forall a :: a in r <==> a in actors && world.ActorValid(a)
  {
    if |actors| == 0 then []
    else ValidActors(world, actors[..|actors| - 1]) + (if world.ActorValid(actors[|actors| - 1]) then [actors[|actors| - 1]] else [])
  }
}
