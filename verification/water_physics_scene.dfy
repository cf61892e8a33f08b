// The water-physics scene: the registry of bodies per component, the two-slot persistent
// triangle buffers selected by the current buffer index, the swept-area bookkeeping the
// slamming force reads, force clamping, and the pruning step of the synchronous stepper.

module PhysicsScene {
  import opened Vectors
  import opened Engine
  import opened WaterPhysicsTypes
  import opened Submersion
  import opened Tessellation
  import SurfaceProvider

  /** EFrame: Frame_Current = 0, Frame_Previous = 1. */
  datatype Frame = FrameCurrent | FramePrevious

  function FrameValue(f: Frame): int {
    if f == FrameCurrent then 0 else 1
  }

  /** FActingForces; the constructor zeroes every vector. */
  datatype ActingForces = ActingForces(
    buoyancyForce: Vec3, buoyancyTorque: Vec3,
    viscousFluidResistanceForce: Vec3, viscousFluidResistanceTorque: Vec3,
    pressureDragForce: Vec3, pressureDragTorque: Vec3,
    slammingForce: Vec3, slammingTorque: Vec3)

  const ZeroActingForces: ActingForces := ActingForces(Zero, Zero, Zero, Zero, Zero, Zero, Zero, Zero)

  /** FWaterPhysicsBody. The two persistent buffers hold one swept water area per source
      triangle; `buffer0` and `buffer1` are PersistentTriangleData[0] and [1]. */
  datatype WaterPhysicsBody = WaterPhysicsBody(
    bodyName: Name,
    settings: WaterPhysicsSettings,
    buffer0: seq<real>,
    buffer1: seq<real>,
    actingForces: ActingForces,
    submergedArea: real)

  /** The body a freshly emplaced FWaterPhysicsBody(Name, Settings) describes. */
  function NewBody(name: Name, settings: WaterPhysicsSettings): WaterPhysicsBody {
    WaterPhysicsBody(name, settings, [], [], ZeroActingForces, 0.0)
  }

  function Buffer(b: WaterPhysicsBody, k: int): seq<real> {
    if k == 0 then b.buffer0 else b.buffer1
  }

  function WithBuffer(b: WaterPhysicsBody, k: int, data: seq<real>): (r: WaterPhysicsBody)
    ensures k in {0, 1} ==> Buffer(r, k) == data && Buffer(r, 1 - k) == Buffer(b, 1 - k)
    ensures r.bodyName == b.bodyName && r.settings == b.settings
    ensures r.actingForces == b.actingForces && r.submergedArea == b.submergedArea
  {
    if k == 0 then b.(buffer0 := data) else b.(buffer1 := data)
  }

  /** FWaterPhysicsBody::ClearTriangleData: both persistent buffers emptied. */
  function ClearedBody(b: WaterPhysicsBody): (r: WaterPhysicsBody)
    ensures Buffer(r, 0) == [] && Buffer(r, 1) == []
    ensures r.bodyName == b.bodyName && r.settings == b.settings
    ensures r.actingForces == b.actingForces && r.submergedArea == b.submergedArea
  {
    b.(buffer0 := [], buffer1 := [])
  }

  /** FWaterPhysicsBodies: the bodies of every registered component. */
  type BodyMap = map<ComponentId, seq<WaterPhysicsBody>>

  /** Within one component, no two bodies share a name. */
  ghost predicate NamesUnique(bodies: BodyMap) {
    forall c, i, j :: c in bodies && 0 <= i < j < |bodies[c]| ==> bodies[c][i].bodyName != bodies[c][j].bodyName
  }

  /** TArray::FindByPredicate on the body name: the first body carrying that name. */
  function FindBodyIndex(list: seq<WaterPhysicsBody>, name: Name): (r: Option<nat>)
    ensures r.Some? ==> r.value < |list| && list[r.value].bodyName == name
    ensures r.Some? ==> forall k :: 0 <= k < r.value ==> list[k].bodyName != name
    ensures r.None? ==> forall k :: 0 <= k < |list| ==> list[k].bodyName != name
  {
    if |list| == 0 then None
    else if list[0].bodyName == name then Some(0)
    else match FindBodyIndex(list[1..], name)
      case None => None
      case Some(k) => Some(k + 1)
  }

  /** FindComponentBody: the component's first body with that name, or nothing (null). */
  function FindComponentBody(bodies: BodyMap, c: ComponentId, name: Name): (r: Option<WaterPhysicsBody>)
    ensures r.Some? <==> c in bodies && exists k :: 0 <= k < |bodies[c]| && bodies[c][k].bodyName == name
    ensures r.Some? ==> r.value.bodyName == name && r.value in bodies[c]
  {
    if c !in bodies then None
    else match FindBodyIndex(bodies[c], name)
      case None => None
      case Some(k) => Some(bodies[c][k])
  }

  /** A body is found at its index exactly when it is the first with its name. */
  lemma FindBodyIndexOfFirst(list: seq<WaterPhysicsBody>, k: nat)
    requires k < |list| && forall j :: 0 <= j < k ==> list[j].bodyName != list[k].bodyName
    ensures FindBodyIndex(list, list[k].bodyName) == Some(k)
  {
  }

  /** Replacing a body by one with the same name, or appending a body with another name,
      leaves the search for any name where it was (only the body found may differ). */
  lemma FindBodyIndexUpdate(list: seq<WaterPhysicsBody>, k: nat, b: WaterPhysicsBody, n: Name)
    requires k < |list| && b.bodyName == list[k].bodyName
    ensures FindBodyIndex(list[k := b], n) == FindBodyIndex(list, n)
  {
    var l' := list[k := b];
    match FindBodyIndex(list, n)
    case None =>
      assert forall j :: 0 <= j < |l'| ==> l'[j].bodyName == list[j].bodyName;
    case Some(i) =>
      assert l'[i].bodyName == n;
      FindBodyIndexOfFirst(l', i);
  }

  lemma FindBodyIndexAppend(list: seq<WaterPhysicsBody>, b: WaterPhysicsBody, n: Name)
    requires b.bodyName != n
    ensures FindBodyIndex(list + [b], n) == FindBodyIndex(list, n)
  {
    var l' := list + [b];
    match FindBodyIndex(list, n)
    case None =>
    case Some(i) =>
      assert l'[i] == list[i];
      FindBodyIndexOfFirst(l', i);
  }

  /** AddComponentBody on values: an existing (component, name) gets the new settings and
      cleared buffers; otherwise one body is appended, creating the component entry if needed. */
  function WithBodyAdded(bodies: BodyMap, c: ComponentId, name: Name, settings: WaterPhysicsSettings): (r: BodyMap)
    ensures r.Keys == bodies.Keys + {c}
    ensures c in bodies && FindBodyIndex(bodies[c], name).Some? ==> |r[c]| == |bodies[c]|
    ensures !(c in bodies && FindBodyIndex(bodies[c], name).Some?) ==>
      |r[c]| == (if c in bodies then |bodies[c]| else 0) + 1
  {
    if c in bodies then
      match FindBodyIndex(bodies[c], name)
      case Some(k) => bodies[c := bodies[c][k := ClearedBody(bodies[c][k]).(settings := settings)]]
      case None => bodies[c := bodies[c] + [NewBody(name, settings)]]
    else
      bodies[c := [NewBody(name, settings)]]
  }

  /** After AddComponentBody the pair is registered with the given settings and empty buffers;
      a body that was there keeps its acting forces, a new one starts with zero forces. */
  lemma AddedBodyFound(bodies: BodyMap, c: ComponentId, name: Name, settings: WaterPhysicsSettings)
    ensures var found := FindComponentBody(WithBodyAdded(bodies, c, name, settings), c, name);
      found.Some? && found.value.settings == settings &&
      Buffer(found.value, 0) == [] && Buffer(found.value, 1) == [] &&
      (FindComponentBody(bodies, c, name).None? ==> found.value == NewBody(name, settings)) &&
      (FindComponentBody(bodies, c, name).Some? ==>
        found.value.actingForces == FindComponentBody(bodies, c, name).value.actingForces)
  {
    var r: BodyMap := WithBodyAdded(bodies, c, name, settings);
    if c in bodies {
      match FindBodyIndex(bodies[c], name)
      case Some(k) =>
        FindBodyIndexUpdate(bodies[c], k, ClearedBody(bodies[c][k]).(settings := settings), name);
      case None =>
        FindBodyIndexOfFirst(r[c], |bodies[c]|);
    } else {
      FindBodyIndexOfFirst(r[c], 0);
    }
  }

  /** AddComponentBody changes what no other (component, name) lookup finds. */
  lemma AddLeavesOthers(bodies: BodyMap, c: ComponentId, name: Name, settings: WaterPhysicsSettings, c': ComponentId, n': Name)
    requires c' != c || n' != name
    ensures FindComponentBody(WithBodyAdded(bodies, c, name, settings), c', n') == FindComponentBody(bodies, c', n')
  {
    var r: BodyMap := WithBodyAdded(bodies, c, name, settings);
    if c' == c && c in bodies {
      match FindBodyIndex(bodies[c], name)
      case Some(k) =>
        FindBodyIndexUpdate(bodies[c], k, ClearedBody(bodies[c][k]).(settings := settings), n');
      case None =>
        FindBodyIndexAppend(bodies[c], NewBody(name, settings), n');
    } else if c' == c {
      assert r[c][0].bodyName != n';
    }
  }

  /** Body names stay unique per component under AddComponentBody. */
  lemma AddKeepsNamesUnique(bodies: BodyMap, c: ComponentId, name: Name, settings: WaterPhysicsSettings)
    requires NamesUnique(bodies)
    ensures NamesUnique(WithBodyAdded(bodies, c, name, settings))
  {
    var r: BodyMap := WithBodyAdded(bodies, c, name, settings);
    forall c', i, j | c' in r && 0 <= i < j < |r[c']|
      ensures r[c'][i].bodyName != r[c'][j].bodyName
    {
      if c' == c && c in bodies {
        match FindBodyIndex(bodies[c], name)
        case Some(k) =>
          assert r[c][i].bodyName == bodies[c][i].bodyName && r[c][j].bodyName == bodies[c][j].bodyName;
        case None =>
          if j == |bodies[c]| {
            assert bodies[c][i].bodyName != name;
          } else {
            assert r[c][i] == bodies[c][i] && r[c][j] == bodies[c][j];
          }
      }
    }
  }

  /** TArray::RemoveAll on the body name: the others, in order. */
  function RemoveNamed(list: seq<WaterPhysicsBody>, name: Name): (r: seq<WaterPhysicsBody>)
    ensures forall b :: b in r <==> b in list && b.bodyName != name
    ensures |r| <= |list|
    ensures |r| == |list| <==> FindBodyIndex(list, name).None?
  {
    if |list| == 0 then []
    else if list[0].bodyName == name then RemoveNamed(list[1..], name)
    else
      assert FindBodyIndex(list, name).Some? <==> FindBodyIndex(list[1..], name).Some?;
      [list[0]] + RemoveNamed(list[1..], name)
  }

  /** Removing the bodies of one name leaves the search for every other name finding the same body. */
  lemma {:induction false} RemoveNamedKeepsOthers(list: seq<WaterPhysicsBody>, name: Name, n: Name)
    requires n != name
    ensures var r := RemoveNamed(list, name);
      FindBodyIndex(r, n).Some? == FindBodyIndex(list, n).Some? &&
      (FindBodyIndex(r, n).Some? ==> r[FindBodyIndex(r, n).value] == list[FindBodyIndex(list, n).value])
  {
    if |list| > 0 {
      var tail := list[1..];
      var rt := RemoveNamed(tail, name);
      RemoveNamedKeepsOthers(tail, name, n);
      var r := RemoveNamed(list, name);
      if list[0].bodyName == name {
        assert r == rt;
        FindBodyIndexTail(list, n);
      } else if list[0].bodyName != n {
        assert r == [list[0]] + rt && r[1..] == rt;
        FindBodyIndexTail(list, n);
        FindBodyIndexTail(r, n);
      }
    }
  }

  /** When the first body has another name, the search continues in the rest of the list. */
  lemma FindBodyIndexTail(list: seq<WaterPhysicsBody>, n: Name)
    requires |list| > 0 && list[0].bodyName != n
    ensures FindBodyIndex(list, n).Some? == FindBodyIndex(list[1..], n).Some?
    ensures FindBodyIndex(list, n).Some? ==>
      FindBodyIndex(list, n).value == FindBodyIndex(list[1..], n).value + 1 &&
      list[FindBodyIndex(list, n).value] == list[1..][FindBodyIndex(list[1..], n).value]
  {
  }

  /** RemoveComponentBody on values; a missing component is left alone. */
  function WithBodyRemoved(bodies: BodyMap, c: ComponentId, name: Name): (r: BodyMap)
    ensures r.Keys == bodies.Keys
    ensures FindComponentBody(r, c, name).None?
    ensures forall c' :: c' in r && c' != c ==> r[c'] == bodies[c']
  {
    if c in bodies then
      bodies[c := RemoveNamed(bodies[c], name)]
    else bodies
  }

  /** RemoveComponentBody leaves every body of another name findable as before. */
  lemma RemoveBodyLeavesOthers(bodies: BodyMap, c: ComponentId, name: Name, c': ComponentId, n': Name)
    requires c' != c || n' != name
    ensures FindComponentBody(WithBodyRemoved(bodies, c, name), c', n') == FindComponentBody(bodies, c', n')
  {
    if c' == c && c in bodies {
      RemoveNamedKeepsOthers(bodies[c], name, n');
    }
  }

  /** RemoveAll keeps the names of the remaining bodies distinct when they were. */
  lemma {:induction false} RemoveNamedKeepsDistinct(list: seq<WaterPhysicsBody>, name: Name)
    requires forall i, j :: 0 <= i < j < |list| ==> list[i].bodyName != list[j].bodyName
    ensures var r := RemoveNamed(list, name);
      forall i, j :: 0 <= i < j < |r| ==> r[i].bodyName != r[j].bodyName
  {
    if |list| > 0 {
      var tail := list[1..];
      RemoveNamedKeepsDistinct(tail, name);
      var r := RemoveNamed(list, name);
      if list[0].bodyName != name {
        assert r == [list[0]] + RemoveNamed(tail, name);
        forall j | 0 < j < |r|
          ensures r[0].bodyName != r[j].bodyName
        {
          assert r[j] in RemoveNamed(tail, name);
          assert r[j] in tail;
          var j' :| 0 <= j' < |tail| && tail[j'] == r[j];
          assert list[j' + 1] == r[j];
        }
      }
    }
  }

  /** Body names stay unique per component under RemoveComponentBody. */
  lemma RemoveKeepsNamesUnique(bodies: BodyMap, c: ComponentId, name: Name)
    requires NamesUnique(bodies)
    ensures NamesUnique(WithBodyRemoved(bodies, c, name))
  {
    var r: BodyMap := WithBodyRemoved(bodies, c, name);
    forall c', i, j | c' in r && 0 <= i < j < |r[c']|
      ensures r[c'][i].bodyName != r[c'][j].bodyName
    {
      if c' == c {
        assert r[c] == RemoveNamed(bodies[c], name);
        RemoveNamedKeepsDistinct(bodies[c], name);
      }
    }
  }

  /** ClearTriangleData(Component, BodyName) on values: the found body's buffers emptied. */
  function WithTriangleDataCleared(bodies: BodyMap, c: ComponentId, name: Name): (r: BodyMap)
    ensures r.Keys == bodies.Keys
    ensures forall c' :: c' in r ==> |r[c']| == |bodies[c']|
    ensures forall c' :: c' in r && c' != c ==> r[c'] == bodies[c']
  {
    if c in bodies then
      match FindBodyIndex(bodies[c], name)
      case Some(k) => bodies[c := bodies[c][k := ClearedBody(bodies[c][k])]]
      case None => bodies
    else bodies
  }

  /** ClearTriangleData empties the named body's buffers and changes nothing else about any body. */
  lemma ClearTriangleDataOnlyBuffers(bodies: BodyMap, c: ComponentId, name: Name, c': ComponentId, n': Name)
    ensures var r := WithTriangleDataCleared(bodies, c, name);
      var before := FindComponentBody(bodies, c', n');
      var after := FindComponentBody(r, c', n');
      after.Some? == before.Some? &&
      (after.Some? && (c', n') == (c, name) ==> after.value == ClearedBody(before.value)) &&
      (after.Some? && (c', n') != (c, name) ==> after.value == before.value)
  {
    if c' == c && c in bodies {
      match FindBodyIndex(bodies[c], name)
      case Some(k) =>
        FindBodyIndexUpdate(bodies[c], k, ClearedBody(bodies[c][k]), n');
      case None =>
    }
  }

  /** GetFrameIndex: |CurrentBufferIndex - Frame|. */
  function FrameIndex(currentBufferIndex: int, f: Frame): (r: int)
    ensures currentBufferIndex in {0, 1} ==> r in {0, 1}
  {
    var d := currentBufferIndex - FrameValue(f);
    if d < 0 then -d else d
  }

  /** The current and previous frames are always the two different slots, and one swap
      (CurrentBufferIndex := 1 - CurrentBufferIndex) exchanges them. */
  lemma FrameSlots(currentBufferIndex: int)
    requires currentBufferIndex in {0, 1}
    ensures FrameIndex(currentBufferIndex, FrameCurrent) != FrameIndex(currentBufferIndex, FramePrevious)
    ensures FrameIndex(1 - currentBufferIndex, FrameCurrent) == FrameIndex(currentBufferIndex, FramePrevious)
    ensures FrameIndex(1 - currentBufferIndex, FramePrevious) == FrameIndex(currentBufferIndex, FrameCurrent)
    ensures 1 - currentBufferIndex in {0, 1} && 1 - (1 - currentBufferIndex) == currentBufferIndex
  {
  }

  function Zeros(n: nat): (r: seq<real>)
    ensures |r| == n && forall i :: 0 <= i < n ==> r[i] == 0.0
  {
    seq(n, _ => 0.0)
  }

  /** The buffer handling of InitFrame for a body whose triangulation has n triangles: the
      current slot becomes n zeros, and the previous slot, when its length differs, becomes a
      copy of those zeros; everything else about the body is kept. */
  function InitFrameBuffers(b: WaterPhysicsBody, currentBufferIndex: int, n: nat): (r: WaterPhysicsBody)
    requires currentBufferIndex in {0, 1}
    ensures Buffer(r, FrameIndex(currentBufferIndex, FrameCurrent)) == Zeros(n)
    ensures var previous := FrameIndex(currentBufferIndex, FramePrevious);
      Buffer(r, previous) == (if |Buffer(b, previous)| == n then Buffer(b, previous) else Zeros(n))
    ensures r.bodyName == b.bodyName && r.settings == b.settings
    ensures r.actingForces == b.actingForces && r.submergedArea == b.submergedArea
  {
    FrameSlots(currentBufferIndex);
    var current := FrameIndex(currentBufferIndex, FrameCurrent);
    var previous := FrameIndex(currentBufferIndex, FramePrevious);
    var withCurrent := WithBuffer(b, current, Zeros(n));
    if |Buffer(withCurrent, previous)| != n then WithBuffer(withCurrent, previous, Buffer(withCurrent, current))
    else withCurrent
  }

  /** What the slamming pass reads of one submerged triangle's FTriangleData. */
  datatype TriangleSweep = TriangleSweep(originalTriangleIndex: int, velocityNormalDot: real, area: real, velocitySize: real)

  /** The swept area one triangle adds to its source triangle's slot: Area * VelocitySize when the
      triangle moves into the water (VelocityNormalDot > 0), else nothing. */
  function SweptArea(t: TriangleSweep): real {
    if t.velocityNormalDot > 0.0 then t.area * t.velocitySize else 0.0
  }

  /** The total swept area the triangles add to slot `slot`. */
  function SweptAreaOfSlot(triangles: seq<TriangleSweep>, slot: int): real
    decreases |triangles|
  {
    if |triangles| == 0 then 0.0
    else
      var last := triangles[|triangles| - 1];
      SweptAreaOfSlot(triangles[..|triangles| - 1], slot) + (if last.originalTriangleIndex == slot then SweptArea(last) else 0.0)
  }

  /** Every triangle's tag names a slot of a frame with n slots. */
  predicate TagsBelow(triangles: seq<TriangleSweep>, n: int) {
    forall t :: 0 <= t < |triangles| ==> 0 <= triangles[t].originalTriangleIndex < n
  }

  /** The accumulation loop of the slamming force: each triangle's swept area is added to the
      current frame at its OriginalTriangleIndex. */
  method AccumulateSweptWaterArea(frame: seq<real>, triangles: seq<TriangleSweep>) returns (r: seq<real>)
    requires TagsBelow(triangles, |frame|)
    ensures |r| == |frame|
    ensures forall s :: 0 <= s < |r| ==> r[s] == frame[s] + SweptAreaOfSlot(triangles, s)
  {
    r := frame;
    var i := 0;
    while i < |triangles|
      invariant 0 <= i <= |triangles| && |r| == |frame|
      invariant forall s :: 0 <= s < |r| ==> r[s] == frame[s] + SweptAreaOfSlot(triangles[..i], s)
    {
      var tag := triangles[i].originalTriangleIndex;
      assert triangles[..i + 1][..i] == triangles[..i];
      r := r[tag := r[tag] + SweptArea(triangles[i])];
      i := i + 1;
    }
    assert triangles[..i] == triangles;
  }

  /** Triangles with positive area (InitFrame clamps it to at least 0.001) and a non-negative
      speed only ever add swept area, and a slot no triangle is tagged with gets nothing. */
  lemma {:induction false} SweptAreaOfSlotBounds(triangles: seq<TriangleSweep>, slot: int)
    requires forall t :: 0 <= t < |triangles| ==> triangles[t].area > 0.0 && triangles[t].velocitySize >= 0.0
    ensures SweptAreaOfSlot(triangles, slot) >= 0.0
    ensures (forall t :: 0 <= t < |triangles| ==> triangles[t].originalTriangleIndex != slot) ==>
      SweptAreaOfSlot(triangles, slot) == 0.0
    decreases |triangles|
  {
    if |triangles| > 0 {
      var last := triangles[|triangles| - 1];
      SweptAreaOfSlotBounds(triangles[..|triangles| - 1], slot);
      assert last.area * last.velocitySize >= 0.0;
    }
  }

  /** The clipper tags every piece with a source triangle index below the triangle count, so
      after InitFrame the slamming writes to CurrentFrame and reads of both frames are in range. */
  lemma SlammingSlotsInBounds(mesh: IndexedTriangleMesh, depths: seq<real>, vertices: seq<SubmergedVertex>,
                              pieces: seq<Triangle>, sweeps: seq<TriangleSweep>, b: WaterPhysicsBody, currentBufferIndex: int)
    requires currentBufferIndex in {0, 1}
    requires PiecesValid(mesh, depths, vertices, pieces, |mesh.indexList| / 3)
    requires |sweeps| == |pieces| && forall p :: 0 <= p < |pieces| ==> sweeps[p].originalTriangleIndex == pieces[p].tag
    ensures var r := InitFrameBuffers(b, currentBufferIndex, |mesh.indexList| / 3);
      TagsBelow(sweeps, |Buffer(r, FrameIndex(currentBufferIndex, FrameCurrent))|) &&
      TagsBelow(sweeps, |Buffer(r, FrameIndex(currentBufferIndex, FramePrevious))|)
  {
    var n := |mesh.indexList| / 3;
    forall p | 0 <= p < |sweeps|
      ensures 0 <= sweeps[p].originalTriangleIndex < n
    {
      assert 0 <= pieces[p].tag < n;
    }
  }

  /** FWaterPhysicsScene: the registered bodies and the index of the current buffer slot. */
  class WaterPhysicsScene {
    var currentBufferIndex: int
    var bodies: BodyMap

    ghost predicate Valid()
      reads this
    {
      currentBufferIndex in {0, 1} && NamesUnique(bodies)
    }

    constructor()
      ensures Valid() && currentBufferIndex == 0 && bodies == map[]
    {
      currentBufferIndex := 0;
      bodies := map[];
    }

    /** AddComponentBody; the returned index locates the added or updated body. */
    method AddComponentBody(c: ComponentId, name: Name, settings: WaterPhysicsSettings) returns (index: nat)
      requires Valid()
      modifies this
      ensures Valid() && currentBufferIndex == old(currentBufferIndex)
      ensures bodies == WithBodyAdded(old(bodies), c, name, settings)
      ensures c in bodies && FindBodyIndex(bodies[c], name) == Some(index)
    {
      AddKeepsNamesUnique(bodies, c, name, settings);
      if c in bodies {
        var list := bodies[c];
        var found := FindBodyIndex(list, name);
        if found.Some? {
          index := found.value;
          list := list[index := ClearedBody(list[index]).(settings := settings)];
          FindBodyIndexUpdate(bodies[c], index, list[index], name);
        } else {
          index := |list|;
          list := list + [NewBody(name, settings)];
          FindBodyIndexOfFirst(list, index);
        }
        bodies := bodies[c := list];
      } else {
        index := 0;
        bodies := bodies[c := [NewBody(name, settings)]];
        FindBodyIndexOfFirst(bodies[c], 0);
      }
    }

    /** RemoveComponent: true iff the component was registered. */
    method RemoveComponent(c: ComponentId) returns (removed: bool)
      requires Valid()
      modifies this
      ensures Valid() && currentBufferIndex == old(currentBufferIndex)
      ensures removed == (c in old(bodies)) && bodies == old(bodies) - {c}
    {
      removed := c in bodies;
      bodies := bodies - {c};
    }

    /** RemoveComponentBody: true iff some body of that name was removed; the (possibly
        empty) component entry stays. */
    method RemoveComponentBody(c: ComponentId, name: Name) returns (removed: bool)
      requires Valid()
      modifies this
      ensures Valid() && currentBufferIndex == old(currentBufferIndex)
      ensures removed == FindComponentBody(old(bodies), c, name).Some?
      ensures bodies == WithBodyRemoved(old(bodies), c, name)
    {
      RemoveKeepsNamesUnique(bodies, c, name);
      if c in bodies {
        var before := |bodies[c]|;
        bodies := WithBodyRemoved(bodies, c, name);
        removed := |bodies[c]| != before;
      } else {
        removed := false;
      }
    }

    /** ClearTriangleData(Component, BodyName). */
    method ClearTriangleData(c: ComponentId, name: Name)
      requires Valid()
      modifies this
      ensures Valid() && currentBufferIndex == old(currentBufferIndex)
      ensures bodies == WithTriangleDataCleared(old(bodies), c, name)
    {
      if c in bodies {
        var found := FindBodyIndex(bodies[c], name);
        if found.Some? {
          bodies := bodies[c := bodies[c][found.value := ClearedBody(bodies[c][found.value])]];
        }
      }
    }

    /** SwapBuffers: the current and previous slots change places. */
    method SwapBuffers()
      requires Valid()
      modifies this
      ensures Valid() && bodies == old(bodies)
      ensures currentBufferIndex == 1 - old(currentBufferIndex)
      ensures FrameIndex(currentBufferIndex, FrameCurrent) == FrameIndex(old(currentBufferIndex), FramePrevious)
    {
      FrameSlots(currentBufferIndex);
      currentBufferIndex := 1 - currentBufferIndex;
    }

    /** ClearWaterPhysicsScene: every body dropped; the buffer index is kept. */
    method ClearWaterPhysicsScene()
      requires Valid()
      modifies this
      ensures Valid() && bodies == map[] && currentBufferIndex == old(currentBufferIndex)
    {
      bodies := map[];
    }

    /** The first part of StepWaterPhysicsScene that touches the registry: components that are
        no longer valid are dropped. The step ends by swapping the buffers. */
    method RemoveInvalidComponents(world: World)
      requires Valid()
      modifies this
      ensures Valid() && currentBufferIndex == old(currentBufferIndex)
      ensures bodies.Keys == set c | c in old(bodies) && world.ComponentValid(c)
      ensures forall c :: c in bodies ==> bodies[c] == old(bodies)[c]
    {
      bodies := map c | c in bodies && world.ComponentValid(c) :: bodies[c];
    }

    /** InitFrame's buffer handling for body k of component c, whose triangulation has n triangles. */
    method InitFrame(c: ComponentId, k: nat, n: nat)
      requires Valid() && c in bodies && k < |bodies[c]|
      modifies this
      ensures Valid() && currentBufferIndex == old(currentBufferIndex)
      ensures bodies == old(bodies)[c := old(bodies)[c][k := InitFrameBuffers(old(bodies)[c][k], currentBufferIndex, n)]]
    {
      var b := InitFrameBuffers(bodies[c][k], currentBufferIndex, n);
      bodies := bodies[c := bodies[c][k := b]];
    }

    /** The swept-area accumulation into the current frame of body k of component c. */
    method AccumulateSweptArea(c: ComponentId, k: nat, triangles: seq<TriangleSweep>)
      requires Valid() && c in bodies && k < |bodies[c]|
      requires TagsBelow(triangles, |Buffer(bodies[c][k], FrameIndex(currentBufferIndex, FrameCurrent))|)
      modifies this
      ensures Valid() && currentBufferIndex == old(currentBufferIndex)
      ensures var current := FrameIndex(currentBufferIndex, FrameCurrent);
        var frame := Buffer(old(bodies)[c][k], current);
        c in bodies && k < |bodies[c]| &&
        bodies == old(bodies)[c := old(bodies)[c][k := bodies[c][k]]] &&
        Buffer(bodies[c][k], 1 - current) == Buffer(old(bodies)[c][k], 1 - current) &&
        |Buffer(bodies[c][k], current)| == |frame| &&
        forall s :: 0 <= s < |frame| ==> Buffer(bodies[c][k], current)[s] == frame[s] + SweptAreaOfSlot(triangles, s)
    {
      var current := FrameIndex(currentBufferIndex, FrameCurrent);
      var frame := AccumulateSweptWaterArea(Buffer(bodies[c][k], current), triangles);
      bodies := bodies[c := bodies[c][k := WithBuffer(bodies[c][k], current, frame)]];
    }
  }

  /** The ClampForce lambda on one component: a force x is cut so that it at most cancels the
      momentum m, never reverses it. */
  function ClampComponent(x: real, m: real): (r: real)
    ensures x > 0.0 ==> 0.0 <= r <= x
    ensures x <= 0.0 ==> x <= r <= 0.0
    ensures r > 0.0 ==> r + m <= 0.0
    ensures r < 0.0 ==> r + m >= 0.0
    ensures x > 0.0 && x + m <= 0.0 ==> r == x
    ensures x < 0.0 && x + m >= 0.0 ==> r == x
  {
    if x > 0.0 then (if x <= (if 0.0 >= -m then 0.0 else -m) then x else (if 0.0 >= -m then 0.0 else -m))
    else (if x >= (if 0.0 <= -m then 0.0 else -m) then x else (if 0.0 <= -m then 0.0 else -m))
  }

  /** `r` is a clamping of the force component `x` against the momentum `m`: it keeps the
      sign of `x`, is no larger, never reverses `m`, and is `x` itself when `x` at most
      cancels `m`. */
  predicate ClampedBy(x: real, m: real, r: real) {
    (x > 0.0 ==> 0.0 <= r <= x) && (x <= 0.0 ==> x <= r <= 0.0) &&
    (r > 0.0 ==> r + m <= 0.0) && (r < 0.0 ==> r + m >= 0.0) &&
    (x > 0.0 && x + m <= 0.0 ==> r == x) && (x < 0.0 && x + m >= 0.0 ==> r == x)
  }

  /** ClampForce: every component of a force (or torque) is clamped against the same
      component of the momentum, independently of the others. */
  function ClampForce(force: Vec3, maxForce: Vec3): (r: Vec3)
    ensures ClampedBy(force.x, maxForce.x, r.x) && ClampedBy(force.y, maxForce.y, r.y) && ClampedBy(force.z, maxForce.z, r.z)
  {
    Vec3(ClampComponent(force.x, maxForce.x), ClampComponent(force.y, maxForce.y), ClampComponent(force.z, maxForce.z))
  }

  /** A clamped force never grows: clamping it again against the same momentum changes nothing. */
  lemma ClampComponentIdempotent(x: real, m: real)
    ensures ClampComponent(ClampComponent(x, m), m) == ClampComponent(x, m)
  {
  }

  /** Clamping a force a second time against the same momentum changes nothing. */
  lemma ClampForceIdempotent(force: Vec3, maxForce: Vec3)
    ensures ClampForce(ClampForce(force, maxForce), maxForce) == ClampForce(force, maxForce)
  {
    ClampComponentIdempotent(force.x, maxForce.x);
    ClampComponentIdempotent(force.y, maxForce.y);
    ClampComponentIdempotent(force.z, maxForce.z);
  }

  /** FWaterBodyProcessingResult, as far as the stepper's bookkeeping reads it. */
  datatype BodyProcessingResult = BodyProcessingResult(hasBodyInstance: bool, settings: WaterPhysicsSettings)

  /** FBodyTriangulationResult: `processing` is the index of the processing result the
      BodyProcessingResult pointer refers to. */
  datatype BodyTriangulationResult = BodyTriangulationResult(processing: nat, triangulatedBody: IndexedTriangleMesh)

  /** One entry of the WaterBodies array: a component and the index of one of its bodies. */
  datatype BodyRef = BodyRef(component: ComponentId, body: nat)

  /** TArray::RemoveAtSwap(i): the last element moves into slot i. */
  function RemoveAtSwap<T>(s: seq<T>, i: nat): (r: seq<T>)
    requires i < |s|
    ensures |r| == |s| - 1
    ensures i < |r| ==> r[i] == s[|s| - 1]
    ensures forall j :: 0 <= j < |r| && j != i ==> r[j] == s[j]
  {
    s[i := s[|s| - 1]][..|s| - 1]
  }

  predicate HasTriangles(t: BodyTriangulationResult) {
    |t.triangulatedBody.indexList| > 0
  }

  /** What the pruning loop establishes: the survivors are exactly the original entries with a
      triangulation, each one with its own body, given by `origin`. */
  ghost predicate PrunedFrom(triangulations0: seq<BodyTriangulationResult>, waterBodies0: seq<BodyRef>,
                             triangulations: seq<BodyTriangulationResult>, waterBodies: seq<BodyRef>, origin: seq<nat>)
  {
    |triangulations0| == |waterBodies0| &&
    |triangulations| == |waterBodies| == |origin| &&
    (forall k :: 0 <= k < |origin| ==>
      origin[k] < |triangulations0| && HasTriangles(triangulations[k]) &&
      triangulations[k] == triangulations0[origin[k]] && waterBodies[k] == waterBodies0[origin[k]]) &&
    (forall k, l :: 0 <= k < l < |origin| ==> origin[k] != origin[l]) &&
    (forall j :: 0 <= j < |triangulations0| && HasTriangles(triangulations0[j]) ==> j in origin)
  }

  /** The state of the pruning loop at cursor i: entries before i have a triangulation, and
      every entry is an original one (at `origin`), with no original lost or repeated. */
  ghost predicate PruneState(triangulations0: seq<BodyTriangulationResult>, waterBodies0: seq<BodyRef>,
                             triangulations: seq<BodyTriangulationResult>, waterBodies: seq<BodyRef>, origin: seq<nat>, i: int)
  {
    |triangulations0| == |waterBodies0| &&
    |triangulations| == |waterBodies| == |origin| && 0 <= i <= |triangulations| &&
    (forall k :: 0 <= k < |origin| ==>
      origin[k] < |triangulations0| && triangulations[k] == triangulations0[origin[k]] && waterBodies[k] == waterBodies0[origin[k]]) &&
    (forall k :: 0 <= k < i ==> HasTriangles(triangulations[k])) &&
    (forall k, l :: 0 <= k < l < |origin| ==> origin[k] != origin[l]) &&
    (forall j :: 0 <= j < |triangulations0| && HasTriangles(triangulations0[j]) ==> j in origin)
  }

  lemma PruneStart(triangulations0: seq<BodyTriangulationResult>, waterBodies0: seq<BodyRef>, origin: seq<nat>)
    requires |triangulations0| == |waterBodies0| && origin == seq(|triangulations0|, j => j)
    ensures PruneState(triangulations0, waterBodies0, triangulations0, waterBodies0, origin, 0)
  {
    forall j | 0 <= j < |triangulations0|
      ensures j in origin
    {
      assert origin[j] == j;
    }
  }

  /** Swap-removing an entry from a sequence without repeats leaves one without repeats. */
  lemma RemoveAtSwapDistinct(origin: seq<nat>, i: nat)
    requires i < |origin| && forall k, l :: 0 <= k < l < |origin| ==> origin[k] != origin[l]
    ensures forall k, l :: 0 <= k < l < |RemoveAtSwap(origin, i)| ==> RemoveAtSwap(origin, i)[k] != RemoveAtSwap(origin, i)[l]
  {
    var origin' := RemoveAtSwap(origin, i);
    forall k, l | 0 <= k < l < |origin'|
      ensures origin'[k] != origin'[l]
    {
      var k0 := if k == i then |origin| - 1 else k;
      var l0 := if l == i then |origin| - 1 else l;
      assert origin'[k] == origin[k0] && origin'[l] == origin[l0] && k0 != l0;
    }
  }

  /** Swap-removing an entry keeps every other value. */
  lemma RemoveAtSwapKeeps(origin: seq<nat>, i: nat, j: nat)
    requires i < |origin| && j in origin && j != origin[i]
    ensures j in RemoveAtSwap(origin, i)
  {
    var origin' := RemoveAtSwap(origin, i);
    var p :| 0 <= p < |origin| && origin[p] == j;
    if p == |origin| - 1 {
      assert origin'[i] == j;
    } else {
      assert origin'[p] == j;
    }
  }

  /** Swap-removing the empty entry at the cursor keeps the loop state at the same cursor. */
  lemma PruneRemoveStep(triangulations0: seq<BodyTriangulationResult>, waterBodies0: seq<BodyRef>,
                        triangulations: seq<BodyTriangulationResult>, waterBodies: seq<BodyRef>, origin: seq<nat>, i: nat)
    requires PruneState(triangulations0, waterBodies0, triangulations, waterBodies, origin, i)
    requires i < |triangulations| && !HasTriangles(triangulations[i])
    ensures PruneState(triangulations0, waterBodies0, RemoveAtSwap(triangulations, i), RemoveAtSwap(waterBodies, i), RemoveAtSwap(origin, i), i)
  {
    RemoveAtSwapDistinct(origin, i);
    forall j | 0 <= j < |triangulations0| && HasTriangles(triangulations0[j])
      ensures j in RemoveAtSwap(origin, i)
    {
      RemoveAtSwapKeeps(origin, i, j);
    }
  }

  /** Passing over an entry with a triangulation moves the cursor on. */
  lemma PruneKeepStep(triangulations0: seq<BodyTriangulationResult>, waterBodies0: seq<BodyRef>,
                      triangulations: seq<BodyTriangulationResult>, waterBodies: seq<BodyRef>, origin: seq<nat>, i: nat)
    requires PruneState(triangulations0, waterBodies0, triangulations, waterBodies, origin, i)
    requires i < |triangulations| && HasTriangles(triangulations[i])
    ensures PruneState(triangulations0, waterBodies0, triangulations, waterBodies, origin, i + 1)
  {
  }

  /** The "ClearInvalidResults" loop of StepWaterBodies_Synchronous: entries whose triangulation
      has no indices are swap-removed from the triangulation results and from WaterBodies (but
      not from the processing results). */
  method PruneEmptyTriangulations(triangulations0: seq<BodyTriangulationResult>, waterBodies0: seq<BodyRef>)
    returns (triangulations: seq<BodyTriangulationResult>, waterBodies: seq<BodyRef>, ghost origin: seq<nat>)
    requires |triangulations0| == |waterBodies0|
    ensures PrunedFrom(triangulations0, waterBodies0, triangulations, waterBodies, origin)
    ensures (forall j :: 0 <= j < |triangulations0| ==> HasTriangles(triangulations0[j])) ==>
      triangulations == triangulations0 && waterBodies == waterBodies0
  {
    triangulations, waterBodies := triangulations0, waterBodies0;
    origin := seq(|triangulations0|, j => j);
    PruneStart(triangulations0, waterBodies0, origin);
    var i := 0;
    ghost var removed := -1;  // an original entry without triangles, once one has been removed
    while i < |triangulations|
      invariant PruneState(triangulations0, waterBodies0, triangulations, waterBodies, origin, i)
      invariant removed < 0 ==> triangulations == triangulations0 && waterBodies == waterBodies0
      invariant removed >= 0 ==> removed < |triangulations0| && !HasTriangles(triangulations0[removed])
      decreases |triangulations| - i
    {
      triangulations, waterBodies, origin, i, removed := PruneNext(triangulations0, waterBodies0, triangulations, waterBodies, origin, i, removed);
    }
  }

  /** One iteration of the pruning loop: an entry without triangles is swap-removed and the
      cursor stays (the source's i--), otherwise the cursor moves on. */
  method PruneNext(triangulations0: seq<BodyTriangulationResult>, waterBodies0: seq<BodyRef>,
                   triangulations: seq<BodyTriangulationResult>, waterBodies: seq<BodyRef>, ghost origin: seq<nat>, i: nat, ghost removed: int)
    returns (triangulations': seq<BodyTriangulationResult>, waterBodies': seq<BodyRef>, ghost origin': seq<nat>, i': nat, ghost removed': int)
    requires PruneState(triangulations0, waterBodies0, triangulations, waterBodies, origin, i) && i < |triangulations|
    requires removed < 0 ==> triangulations == triangulations0 && waterBodies == waterBodies0
    requires removed >= 0 ==> removed < |triangulations0| && !HasTriangles(triangulations0[removed])
    ensures PruneState(triangulations0, waterBodies0, triangulations', waterBodies', origin', i')
    ensures removed' < 0 ==> triangulations' == triangulations0 && waterBodies' == waterBodies0
    ensures removed' >= 0 ==> removed' < |triangulations0| && !HasTriangles(triangulations0[removed'])
    ensures |triangulations'| - i' < |triangulations| - i
  {
    if |triangulations[i].triangulatedBody.indexList| == 0 {
      PruneRemoveStep(triangulations0, waterBodies0, triangulations, waterBodies, origin, i);
      triangulations', waterBodies', origin' := RemoveAtSwap(triangulations, i), RemoveAtSwap(waterBodies, i), RemoveAtSwap(origin, i);
      i', removed' := i, origin[i];
    } else {
      PruneKeepStep(triangulations0, waterBodies0, triangulations, waterBodies, origin, i);
      triangulations', waterBodies', origin', i', removed' := triangulations, waterBodies, origin, i + 1, removed;
    }
  }

  /** A sequence without repeats whose elements all equal v, and that contains v, is [v]. */
  lemma SingleOrigin(origin: seq<nat>, v: nat)
    requires v in origin && forall k :: 0 <= k < |origin| ==> origin[k] == v
    requires forall k, l :: 0 <= k < l < |origin| ==> origin[k] != origin[l]
    ensures |origin| == 1
  {
    assert origin[0] == v == origin[|origin| - 1];
  }

  /** The fetch step as written (WaterPhysicsScene.cpp:1517-1518): the fetching method of the
      k-th surviving body is read from WaterBodyProcessingResults[k]. */
  function FetchingMethodAsWritten(processing: seq<BodyProcessingResult>, triangulations: seq<BodyTriangulationResult>, k: nat): (r: WaterInfoFetchingMethod)
    requires k < |triangulations| <= |processing|
  {
    processing[k].settings.waterInfoFetchingMethod.value
  }

  /** The fetch step as intended: the processing result the triangulation result points to. */
  function FetchingMethod(processing: seq<BodyProcessingResult>, triangulations: seq<BodyTriangulationResult>, k: nat): WaterInfoFetchingMethod
    requires k < |triangulations| && triangulations[k].processing < |processing|
  {
    processing[triangulations[k].processing].settings.waterInfoFetchingMethod.value
  }

  /** With the intended read, every surviving body is fetched with the method of its own merged
      settings: the processing result computed for that very body before pruning. */
  lemma FetchingMethodOwnBody(processing: seq<BodyProcessingResult>, triangulations0: seq<BodyTriangulationResult>, waterBodies0: seq<BodyRef>,
                              triangulations: seq<BodyTriangulationResult>, waterBodies: seq<BodyRef>, origin: seq<nat>, k: nat)
    requires |processing| == |triangulations0| && forall j :: 0 <= j < |triangulations0| ==> triangulations0[j].processing == j
    requires PrunedFrom(triangulations0, waterBodies0, triangulations, waterBodies, origin) && k < |triangulations|
    ensures triangulations[k].processing < |processing|
    ensures waterBodies[k] == waterBodies0[origin[k]]
    ensures FetchingMethod(processing, triangulations, k) == processing[origin[k]].settings.waterInfoFetchingMethod.value
  {
    assert triangulations[k] == triangulations0[origin[k]];
  }

  /** The read as written is only right when nothing was pruned: with an empty first entry and
      a second body fetched PerObject, the surviving body is fetched with the first body's
      PerVertex method instead. */
  lemma FetchingMethodAsWrittenMisaligned(processing: seq<BodyProcessingResult>, triangulations0: seq<BodyTriangulationResult>, waterBodies0: seq<BodyRef>,
                                          triangulations: seq<BodyTriangulationResult>, waterBodies: seq<BodyRef>, origin: seq<nat>, mesh: IndexedTriangleMesh)
    requires |mesh.indexList| > 0
    requires processing == [BodyProcessingResult(true, NewSettings().(waterInfoFetchingMethod := Override(true, PerVertex))),
                            BodyProcessingResult(true, NewSettings().(waterInfoFetchingMethod := Override(true, PerObject)))]
    requires triangulations0 == [BodyTriangulationResult(0, IndexedTriangleMesh([], [])), BodyTriangulationResult(1, mesh)]
    requires waterBodies0 == [BodyRef(7, 0), BodyRef(8, 0)]
    requires PrunedFrom(triangulations0, waterBodies0, triangulations, waterBodies, origin)
    ensures |triangulations| == 1 && waterBodies[0] == BodyRef(8, 0)
    ensures FetchingMethodAsWritten(processing, triangulations, 0) == PerVertex
    ensures FetchingMethod(processing, triangulations, 0) == PerObject
  {
    assert 1 in origin;
    assert !HasTriangles(triangulations0[0]);
    assert forall k :: 0 <= k < |origin| ==> origin[k] == 1;
    SingleOrigin(origin, 1);
  }

  /** The PerVertex fetch: the getter is asked at every vertex, in order. */
  method FetchPerVertex(component: ComponentId, vertexList: seq<Vec3>, getter: (ComponentId, Vec3) -> WaterInfoResult)
    returns (r: seq<WaterInfoResult>)
    ensures |r| == |vertexList|
    ensures forall i :: 0 <= i < |r| ==> r[i] == getter(component, vertexList[i])
  {
    var info := new WaterInfoResult[|vertexList|](_ => DefaultWaterInfo);
    var i := 0;
    while i < |vertexList|
      invariant 0 <= i <= |vertexList|
      invariant forall j :: 0 <= j < i ==> info[j] == getter(component, vertexList[j])
    {
      info[i] := getter(component, vertexList[i]);
      i := i + 1;
    }
    r := info[..];
  }

  /** The PerObject fetch: the getter is asked once, at the component's location, and that one
      sample is given to every vertex. */
  method FetchPerObject(component: ComponentId, vertexList: seq<Vec3>, componentLocation: Vec3,
                        getter: (ComponentId, Vec3) -> WaterInfoResult)
    returns (r: seq<WaterInfoResult>)
    ensures |r| == |vertexList|
    ensures forall i :: 0 <= i < |r| ==> r[i] == getter(component, componentLocation)
  {
    var info := new WaterInfoResult[|vertexList|](_ => DefaultWaterInfo);
    var waterSurface := getter(component, componentLocation);
    var i := 0;
    while i < info.Length
      invariant 0 <= i <= info.Length
      invariant forall j :: 0 <= j < i ==> info[j] == waterSurface
    {
      info[i] := waterSurface;
      i := i + 1;
    }
    r := info[..];
  }

  /** FetchVerticesWaterInfo: one sample per vertex, in vertex order, by the body's fetching
      method. The surface provider (which the source demands for that method) answers each
      vertex from a cached section that holds it; the component's location, which the source
      reads from its world transform, is the parameter `componentLocation`. */
  method FetchVerticesWaterInfo(component: ComponentId, vertexList: seq<Vec3>, fetching: WaterInfoFetchingMethod,
                                getter: (ComponentId, Vec3) -> WaterInfoResult,
                                provider: SurfaceProvider.WorldAlignedWaterSurfaceProvider?,
                                componentLocation: Vec3, safeNormal: Vec3 -> Vec3)
    returns (r: seq<WaterInfoResult>, ghost holders: seq<nat>)
    requires fetching == WaterSurfaceProvider ==> provider != null && provider.Valid()
    modifies if fetching == WaterSurfaceProvider && provider != null then provider.Repr else {}
    ensures |r| == |vertexList|
    ensures fetching == PerVertex ==> forall i :: 0 <= i < |r| ==> r[i] == getter(component, vertexList[i])
    ensures fetching == PerObject ==> forall i :: 0 <= i < |r| ==> r[i] == getter(component, componentLocation)
    ensures fetching == WaterSurfaceProvider ==>
      provider.Valid() && |holders| == |r| &&
      forall i :: 0 <= i < |r| ==> SurfaceProvider.AnsweredIn(provider.View(), vertexList[i], holders[i], r[i], safeNormal)
  {
    holders := [];
    match fetching {
      case WaterSurfaceProvider =>
        r, holders := provider.CalculateVerticesWaterInfo(vertexList, component, getter, safeNormal);
      case PerVertex =>
        r := FetchPerVertex(component, vertexList, getter);
      case PerObject =>
        r := FetchPerObject(component, vertexList, componentLocation, getter);
    }
  }
}
