// UWaterPhysicsCollisionComponent: logical collision for the water-physics system. It turns its
// collision type and shape fields (or a static mesh's render or collision data) into a
// collision setup, keeps its capsule and LOD fields consistent after editor changes, and finds
// the physics body it rides on by walking up its attachment chain.

module CollisionComponent {
  import opened Vectors
  import opened Engine
  import opened WaterPhysicsTypes
  import opened WaterPhysicsMath

  /** EWaterPhysicsCollisionType. */
  datatype CollisionType = Mesh | MeshCollision | Box | Sphere | Capsule

  /** One LOD of a static mesh's render data: the index buffer and the vertex positions. */
  datatype LODResource = LODResource(indices: seq<int>, positions: seq<Vec3>)

  /** The shapes of a static mesh's simple collision (FKAggregateGeom). */
  datatype KSphereElem = KSphereElem(center: Vec3, radius: real)
  datatype KBoxElem = KBoxElem(center: Vec3, rotation: Rotator, x: real, y: real, z: real)
  datatype KSphylElem = KSphylElem(center: Vec3, rotation: Rotator, radius: real, length: real)
  datatype KConvexElem = KConvexElem(vertexData: seq<Vec3>, indexData: seq<int>)

  datatype AggregateGeom = AggregateGeom(
    sphereElems: seq<KSphereElem>,
    boxElems: seq<KBoxElem>,
    sphylElems: seq<KSphylElem>,
    convexElems: seq<KConvexElem>)

  datatype BodySetup = BodySetup(valid: bool, aggGeom: AggregateGeom)

  /** What the component reads of a (non-null) UStaticMesh. */
  datatype StaticMesh = StaticMesh(
    valid: bool,
    allowCPUAccess: bool,
    renderData: Option<seq<LODResource>>,
    bodySetup: Option<BodySetup>)

  /** UStaticMesh::GetNumLODs: the number of render LODs, zero without render data. */
  function NumLODs(m: StaticMesh): nat {
    if m.renderData.Some? then |m.renderData.value| else 0
  }

  /** Index buffers and convex elements come in whole triangles, which the per-triangle loops
      of the setup generation rely on. */
  predicate TriangleLists(m: StaticMesh) {
    (m.renderData.Some? ==> forall l :: 0 <= l < |m.renderData.value| ==> |m.renderData.value[l].indices| % 3 == 0) &&
    (m.bodySetup.Some? ==> forall e :: 0 <= e < |m.bodySetup.value.aggGeom.convexElems| ==>
      |m.bodySetup.value.aggGeom.convexElems[e].indexData| % 3 == 0)
  }

  /** Whether the Mesh type can read LOD `lod`: a valid mesh with CPU access, render data with
      that LOD, and non-empty index and vertex buffers. */
  predicate MeshReadable(mesh: Option<StaticMesh>, lod: int) {
    mesh.Some? && mesh.value.valid && mesh.value.allowCPUAccess &&
    mesh.value.renderData.Some? && 0 <= lod < |mesh.value.renderData.value| &&
    |mesh.value.renderData.value[lod].indices| != 0 && |mesh.value.renderData.value[lod].positions| != 0
  }

  /** The mesh the convex loop adds for one element (ExtractConvexElemTriangles, with the
      winding flipped when the negative-scale compensation asks for mirroring). */
  function ConvexMesh(e: KConvexElem, mirrorX: bool): IndexedTriangleMesh
    requires |e.indexData| % 3 == 0
  {
    if mirrorX then IndexedTriangleMesh(MirroredX(e.vertexData), FlippedWinding(e.indexData))
    else IndexedTriangleMesh(e.vertexData, e.indexData)
  }

  /** The sphere loop of the MeshCollision case: centre and radius copied, in order. */
  method CopySphereElems(elems: seq<KSphereElem>) returns (r: seq<SphereElem>)
    ensures |r| == |elems|
    ensures forall i :: 0 <= i < |elems| ==> r[i] == SphereElem(elems[i].center, elems[i].radius)
  {
    r := [];
    for i := 0 to |elems|
      invariant |r| == i
      invariant forall k :: 0 <= k < i ==> r[k] == SphereElem(elems[k].center, elems[k].radius)
    {
      r := r + [SphereElem(elems[i].center, elems[i].radius)];
    }
  }

  /** The box loop: centre and rotation copied, the extent assembled from X, Y and Z. */
  method CopyBoxElems(elems: seq<KBoxElem>) returns (r: seq<BoxElem>)
    ensures |r| == |elems|
    ensures forall i :: 0 <= i < |elems| ==>
      r[i] == BoxElem(elems[i].center, elems[i].rotation, Vec3(elems[i].x, elems[i].y, elems[i].z))
  {
    r := [];
    for i := 0 to |elems|
      invariant |r| == i
      invariant forall k :: 0 <= k < i ==> r[k] == BoxElem(elems[k].center, elems[k].rotation, Vec3(elems[k].x, elems[k].y, elems[k].z))
    {
      r := r + [BoxElem(elems[i].center, elems[i].rotation, Vec3(elems[i].x, elems[i].y, elems[i].z))];
    }
  }

  /** The capsule loop: the element's Length becomes the setup's half-height field. */
  method CopySphylElems(elems: seq<KSphylElem>) returns (r: seq<SphylElem>)
    ensures |r| == |elems|
    ensures forall i :: 0 <= i < |elems| ==>
      r[i] == SphylElem(elems[i].center, elems[i].rotation, elems[i].radius, elems[i].length)
  {
    r := [];
    for i := 0 to |elems|
      invariant |r| == i
      invariant forall k :: 0 <= k < i ==> r[k] == SphylElem(elems[k].center, elems[k].rotation, elems[k].radius, elems[k].length)
    {
      r := r + [SphylElem(elems[i].center, elems[i].rotation, elems[i].radius, elems[i].length)];
    }
  }

  /** The convex loop: one mesh element per convex element, in order. Whether an element is
      mirrored depends on the component scale and the element transform, which are not part of
      this model; `mirror` gives that decision per element. */
  method ExtractConvexElems(elems: seq<KConvexElem>, mirror: KConvexElem -> bool) returns (r: seq<IndexedTriangleMesh>)
    requires forall e :: 0 <= e < |elems| ==> |elems[e].indexData| % 3 == 0
    ensures |r| == |elems|
    ensures forall i :: 0 <= i < |elems| ==> r[i] == ConvexMesh(elems[i], mirror(elems[i]))
  {
    r := [];
    for i := 0 to |elems|
      invariant |r| == i
      invariant forall k :: 0 <= k < i ==> r[k] == ConvexMesh(elems[k], mirror(elems[k]))
    {
      var m := ExtractConvexElemTriangles(elems[i].vertexData, elems[i].indexData, mirror(elems[i]));
      r := r + [m];
    }
  }

  /** The index loop of the Mesh case: every triangle's indices written in reverse order. */
  method ReversedIndexList(indices: seq<int>) returns (r: seq<int>)
    requires |indices| % 3 == 0
    ensures r == FlippedWinding(indices)
  {
    r := seq(|indices|, _ => 0);
    var i := 0;
    while i < |indices|
      invariant 0 <= i <= |indices| == |r| && i % 3 == 0
      invariant forall k :: 0 <= k < i ==> r[k] == indices[FlippedPosition(k)]
    {
      r := r[i := indices[i + 2]][i + 1 := indices[i + 1]][i + 2 := indices[i]];
      assert FlippedPosition(i) == i + 2 && FlippedPosition(i + 1) == i + 1 && FlippedPosition(i + 2) == i by {
        assert i % 3 == 0 && (i + 1) % 3 == 1 && (i + 2) % 3 == 2;
      }
      i := i + 3;
    }
  }

  /** The vertex loop of the Mesh case: positions copied one for one. */
  method CopyPositions(positions: seq<Vec3>) returns (r: seq<Vec3>)
    ensures r == positions
  {
    r := seq(|positions|, _ => Zero);
    for i := 0 to |positions|
      invariant |r| == |positions|
      invariant forall k :: 0 <= k < i ==> r[k] == positions[k]
    {
      r := r[i := positions[i]];
    }
  }

  /** The mesh element of the Mesh case reverses every triangle of the LOD's index buffer and
      keeps its vertices, so it is well formed whenever that LOD is. */
  lemma MeshElemReversesTriangles(lod: LODResource)
    requires |lod.indices| % 3 == 0
    ensures var m := IndexedTriangleMesh(lod.positions, FlippedWinding(lod.indices));
      |m.indexList| == |lod.indices| &&
      (forall t :: 0 <= t < |lod.indices| / 3 ==>
        m.indexList[3 * t] == lod.indices[3 * t + 2] &&
        m.indexList[3 * t + 1] == lod.indices[3 * t + 1] &&
        m.indexList[3 * t + 2] == lod.indices[3 * t]) &&
      (WellFormed(IndexedTriangleMesh(lod.positions, lod.indices)) ==> WellFormed(m))
  {
    var source := IndexedTriangleMesh(lod.positions, lod.indices);
    MirrorFlipProperties(source);
    var m := IndexedTriangleMesh(lod.positions, FlippedWinding(lod.indices));
    if WellFormed(source) {
      assert WellFormed(IndexedTriangleMesh(MirroredX(lod.positions), FlippedWinding(lod.indices)));
      assert |MirroredX(lod.positions)| == |lod.positions|;
    }
  }

  /** Which property an editor change touched. */
  datatype EditedProperty = CapsuleHalfHeightProperty | CapsuleRadiusProperty | MeshProperty | LODProperty | OtherProperty

  function Max3(a: real, b: real, c: real): (r: real)
    ensures r >= a && r >= b && r >= c
    ensures r == a || r == b || r == c
  {
    var m := if a < b then b else a;
    if m < c then c else m
  }

  /** The attachment hierarchy the parent walk reads. `level` ranks components so that every
      parent ranks below its child: the engine does not allow attachment cycles. */
  datatype AttachTree = AttachTree(
    parent: map<ComponentId, ComponentId>,
    socket: map<ComponentId, Name>,
    primitives: set<ComponentId>,
    bodyInstances: map<(ComponentId, Name), nat>,
    level: map<ComponentId, nat>)

  predicate Acyclic(t: AttachTree) {
    forall c :: c in t.parent ==> c in t.level && t.parent[c] in t.level && t.level[t.parent[c]] < t.level[c]
  }

  /** GetAttachSocketName. */
  function SocketOf(t: AttachTree, c: ComponentId): Name {
    if c in t.socket then t.socket[c] else NameNone
  }

  /** Whether `p`, the attach parent of `c`, is a primitive with a body for the socket `c` is
      attached to (GetBodyInstance). */
  predicate HasBodyFor(t: AttachTree, p: ComponentId, c: ComponentId) {
    p in t.primitives && (p, SocketOf(t, c)) in t.bodyInstances
  }

  /** The components above `c`: its parent, the parent's parent, and so on. */
  function Ancestors(t: AttachTree, c: ComponentId): (r: seq<ComponentId>)
    requires Acyclic(t) && (c in t.parent ==> c in t.level)
    ensures forall k :: 0 <= k < |r| ==> r[k] in t.level
    decreases if c in t.level then t.level[c] else 0
  {
    if c !in t.parent then [] else [t.parent[c]] + Ancestors(t, t.parent[c])
  }

  /** The child below ancestor k on the chain (the component itself for the first). */
  function ChildOnChain(c: ComponentId, chain: seq<ComponentId>, k: nat): ComponentId
    requires k < |chain|
  {
    if k == 0 then c else chain[k - 1]
  }

  /** Whether any ancestor's body answers for the child attached below it. */
  predicate ChainHasBody(t: AttachTree, c: ComponentId, chain: seq<ComponentId>) {
    exists k :: 0 <= k < |chain| && HasBodyFor(t, chain[k], ChildOnChain(c, chain, k))
  }

  /** FindParentBodyInstance on values: the body of the nearest ancestor that has one for the
      socket its child is attached to. */
  function NearestParentBody(t: AttachTree, c: ComponentId): Option<nat>
    requires Acyclic(t) && (c in t.parent ==> c in t.level)
    decreases if c in t.level then t.level[c] else 0
  {
    if c !in t.parent then None
    else
      var p := t.parent[c];
      if HasBodyFor(t, p, c) then Some(t.bodyInstances[(p, SocketOf(t, c))])
      else NearestParentBody(t, p)
  }

  /** The walk finds a body iff some ancestor has one for its child's socket, and then it is
      the body of the first such ancestor on the way up. */
  lemma {:induction false} NearestParentBodyIsFirst(t: AttachTree, c: ComponentId)
    requires Acyclic(t) && (c in t.parent ==> c in t.level)
    ensures var chain := Ancestors(t, c);
      var r := NearestParentBody(t, c);
      (r.Some? <==> ChainHasBody(t, c, chain)) &&
      (r.Some? ==>
        exists k ::
          0 <= k < |chain| && HasBodyFor(t, chain[k], ChildOnChain(c, chain, k)) &&
          r.value == t.bodyInstances[(chain[k], SocketOf(t, ChildOnChain(c, chain, k)))] &&
          forall j :: 0 <= j < k ==> !HasBodyFor(t, chain[j], ChildOnChain(c, chain, j)))
    decreases if c in t.level then t.level[c] else 0
  {
    if c in t.parent {
      var p := t.parent[c];
      var chain := Ancestors(t, c);
      var rest := Ancestors(t, p);
      assert chain == [p] + rest;
      assert chain[0] == p && ChildOnChain(c, chain, 0) == c;
      if HasBodyFor(t, p, c) {
        assert ChainHasBody(t, c, chain);
      } else {
        NearestParentBodyIsFirst(t, p);
        forall k | 1 <= k < |chain|
          ensures chain[k] == rest[k - 1] && ChildOnChain(c, chain, k) == ChildOnChain(p, rest, k - 1)
        {
        }
        if ChainHasBody(t, c, chain) {
          var k :| 0 <= k < |chain| && HasBodyFor(t, chain[k], ChildOnChain(c, chain, k));
          assert k > 0;
          assert HasBodyFor(t, rest[k - 1], ChildOnChain(p, rest, k - 1));
        }
        if NearestParentBody(t, p).Some? {
          var k :| 0 <= k < |rest| && HasBodyFor(t, rest[k], ChildOnChain(p, rest, k)) &&
            NearestParentBody(t, p).value == t.bodyInstances[(rest[k], SocketOf(t, ChildOnChain(p, rest, k)))] &&
            forall j :: 0 <= j < k ==> !HasBodyFor(t, rest[j], ChildOnChain(p, rest, j));
          assert chain[k + 1] == rest[k];
          forall j | 0 <= j < k + 1
            ensures !HasBodyFor(t, chain[j], ChildOnChain(c, chain, j))
          {
            if j > 0 {
              assert chain[j] == rest[j - 1];
            }
          }
        }
      }
    }
  }

  /** WaterPhysicsCollision::FindParentBodyInstance: climb the attachment chain until a parent
      primitive has a body for the socket of the component below it. */
  method FindParentBodyInstance(t: AttachTree, c: ComponentId) returns (r: Option<nat>)
    requires Acyclic(t) && (c in t.parent ==> c in t.level)
    ensures r == NearestParentBody(t, c)
  {
    var current := c;
    while current in t.parent
      invariant current in t.parent ==> current in t.level
      invariant NearestParentBody(t, current) == NearestParentBody(t, c)
      decreases if current in t.level then t.level[current] else 0
    {
      var p := t.parent[current];
      if p in t.primitives && (p, SocketOf(t, current)) in t.bodyInstances {
        return Some(t.bodyInstances[(p, SocketOf(t, current))]);
      }
      current := p;
    }
    return None;
  }

  /** UWaterPhysicsCollisionComponent: the editable fields that shape its collision. */
  class WaterPhysicsCollisionComponent {
    var collisionType: CollisionType
    var mesh: Option<StaticMesh>
    var lod: int
    var boxExtent: Vec3
    var sphereRadius: real
    var capsuleRadius: real
    var capsuleHalfHeight: real
    var attachSocketName: Name

    /** The capsule fields describe a capsule: a non-negative radius within the half-height. */
    predicate CapsuleOrdered()
      reads this
    {
      0.0 <= capsuleRadius <= capsuleHalfHeight
    }

    /** The constructor's defaults: a Mesh-type component with no mesh, LOD 0, a 32-unit box
        and sphere, and a 22 by 44 capsule. */
    constructor(socket: Name)
      ensures collisionType == Mesh && mesh == None && lod == 0
      ensures boxExtent == Vec3(32.0, 32.0, 32.0) && sphereRadius == 32.0
      ensures capsuleRadius == 22.0 && capsuleHalfHeight == 44.0
      ensures attachSocketName == socket
      ensures CapsuleOrdered()
    {
      collisionType := Mesh;
      mesh := None;
      lod := 0;
      boxExtent := Vec3(32.0, 32.0, 32.0);
      sphereRadius := 32.0;
      capsuleRadius := 22.0;
      capsuleHalfHeight := 44.0;
      attachSocketName := socket;
    }

    /** PostEditChangeProperty, called after the editor has written the new value of
        `property`: the half-height is raised to at least zero and the radius, the radius is
        clamped into [0, half-height], and after a Mesh or LOD change the LOD is clamped into
        the mesh's LOD range (or reset to 0 when the Mesh type has no valid mesh). */
    method PostEditChangeProperty(property: EditedProperty)
      modifies this
      ensures collisionType == old(collisionType) && mesh == old(mesh) && boxExtent == old(boxExtent)
      ensures sphereRadius == old(sphereRadius) && attachSocketName == old(attachSocketName)
      ensures property == CapsuleHalfHeightProperty ==>
        capsuleHalfHeight == Max3(0.0, old(capsuleHalfHeight), old(capsuleRadius)) && capsuleRadius == old(capsuleRadius) && lod == old(lod)
      ensures property == CapsuleRadiusProperty ==>
        capsuleRadius == Clamp(old(capsuleRadius), 0.0, old(capsuleHalfHeight)) && capsuleHalfHeight == old(capsuleHalfHeight) && lod == old(lod)
      ensures property in {MeshProperty, LODProperty} ==>
        capsuleRadius == old(capsuleRadius) && capsuleHalfHeight == old(capsuleHalfHeight) &&
        lod == if collisionType == Mesh && mesh.Some? && mesh.value.valid
               then ClampInt(old(lod), 0, NumLODs(mesh.value) - 1) else 0
      ensures property == OtherProperty ==>
        capsuleRadius == old(capsuleRadius) && capsuleHalfHeight == old(capsuleHalfHeight) && lod == old(lod)
      ensures property == CapsuleHalfHeightProperty && old(capsuleRadius) >= 0.0 ==> CapsuleOrdered()
      ensures property == CapsuleRadiusProperty && old(capsuleHalfHeight) >= 0.0 ==> CapsuleOrdered()
      ensures property in {CapsuleHalfHeightProperty, CapsuleRadiusProperty} && old(CapsuleOrdered()) ==> CapsuleOrdered()
    {
      match property {
        case CapsuleHalfHeightProperty =>
          capsuleHalfHeight := Max3(0.0, capsuleHalfHeight, capsuleRadius);
        case CapsuleRadiusProperty =>
          capsuleRadius := Clamp(capsuleRadius, 0.0, capsuleHalfHeight);
        case MeshProperty =>
          ClampLOD();
        case LODProperty =>
          ClampLOD();
        case OtherProperty =>
      }
    }

    /** The LOD branch of PostEditChangeProperty. */
    method ClampLOD()
      modifies this`lod
      ensures lod == if collisionType == Mesh && mesh.Some? && mesh.value.valid
                     then ClampInt(old(lod), 0, NumLODs(mesh.value) - 1) else 0
    {
      if collisionType == Mesh && mesh.Some? && mesh.value.valid {
        lod := ClampInt(lod, 0, NumLODs(mesh.value) - 1);
      } else {
        lod := 0;
      }
    }

    /** GetAllBodyNames: only the socket the component is attached to. */
    method GetAllBodyNames() returns (r: seq<Name>)
      ensures |r| == 1 && r[0] == attachSocketName
    {
      r := [attachSocketName];
    }

    /** GenerateWaterPhysicsCollisionSetup. Mesh: one mesh element with the LOD's vertices and
        every triangle reversed, or nothing if the LOD cannot be read. MeshCollision: the
        mesh's simple collision copied list by list, or nothing without a valid body setup.
        Box, Sphere, Capsule: one element of that shape at the origin with zero rotation. */
    method GenerateWaterPhysicsCollisionSetup(mirror: KConvexElem -> bool) returns (r: CollisionSetup)
      requires mesh.Some? ==> TriangleLists(mesh.value)
      ensures collisionType == Mesh && MeshReadable(mesh, lod) ==>
        r == CollisionSetup([], [], [], [IndexedTriangleMesh(mesh.value.renderData.value[lod].positions,
                                                            FlippedWinding(mesh.value.renderData.value[lod].indices))])
      ensures collisionType == Mesh && !MeshReadable(mesh, lod) ==> r == EmptyCollisionSetup
      ensures collisionType == MeshCollision && !HasBodySetup(mesh) ==> r == EmptyCollisionSetup
      ensures collisionType == MeshCollision && HasBodySetup(mesh) ==>
        var agg := mesh.value.bodySetup.value.aggGeom;
        |r.sphereElems| == |agg.sphereElems| && |r.boxElems| == |agg.boxElems| &&
        |r.sphylElems| == |agg.sphylElems| && |r.meshElems| == |agg.convexElems| &&
        (forall i :: 0 <= i < |agg.sphereElems| ==> r.sphereElems[i] == SphereElem(agg.sphereElems[i].center, agg.sphereElems[i].radius)) &&
        (forall i :: 0 <= i < |agg.boxElems| ==>
          r.boxElems[i] == BoxElem(agg.boxElems[i].center, agg.boxElems[i].rotation, Vec3(agg.boxElems[i].x, agg.boxElems[i].y, agg.boxElems[i].z))) &&
        (forall i :: 0 <= i < |agg.sphylElems| ==>
          r.sphylElems[i] == SphylElem(agg.sphylElems[i].center, agg.sphylElems[i].rotation, agg.sphylElems[i].radius, agg.sphylElems[i].length)) &&
        (forall i :: 0 <= i < |agg.convexElems| ==> r.meshElems[i] == ConvexMesh(agg.convexElems[i], mirror(agg.convexElems[i])))
      ensures collisionType == Box ==> r == CollisionSetup([], [BoxElem(Zero, ZeroRotator, boxExtent)], [], [])
      ensures collisionType == Sphere ==> r == CollisionSetup([SphereElem(Zero, sphereRadius)], [], [], [])
      ensures collisionType == Capsule ==> r == CollisionSetup([], [], [SphylElem(Zero, ZeroRotator, capsuleRadius, capsuleHalfHeight)], [])
      ensures collisionType in {Box, Sphere, Capsule} ==> NumCollisionElems(r) == 1
      ensures collisionType == Mesh ==> NumCollisionElems(r) <= 1
      ensures collisionType == MeshCollision && HasBodySetup(mesh) ==>
        var agg := mesh.value.bodySetup.value.aggGeom;
        NumCollisionElems(r) == |agg.sphereElems| + |agg.boxElems| + |agg.sphylElems| + |agg.convexElems|
    {
      r := EmptyCollisionSetup;
      match collisionType {
        case Mesh =>
          if !MeshReadable(mesh, lod) {
            return;
          }
          var resource := mesh.value.renderData.value[lod];
          var indexList := ReversedIndexList(resource.indices);
          var vertexList := CopyPositions(resource.positions);
          r := r.(meshElems := [IndexedTriangleMesh(vertexList, indexList)]);
        case MeshCollision =>
          if !HasBodySetup(mesh) {
            return;
          }
          var agg := mesh.value.bodySetup.value.aggGeom;
          var spheres := CopySphereElems(agg.sphereElems);
          var boxes := CopyBoxElems(agg.boxElems);
          var sphyls := CopySphylElems(agg.sphylElems);
          var meshes := ExtractConvexElems(agg.convexElems, mirror);
          r := CollisionSetup(spheres, boxes, sphyls, meshes);
        case Box =>
          r := r.(boxElems := [BoxElem(Zero, ZeroRotator, boxExtent)]);
        case Sphere =>
          r := r.(sphereElems := [SphereElem(Zero, sphereRadius)]);
        case Capsule =>
          r := r.(sphylElems := [SphylElem(Zero, ZeroRotator, capsuleRadius, capsuleHalfHeight)]);
      }
    }
  }

  /** The MeshCollision case reads a body setup only from a valid mesh, and only a valid one. */
  predicate HasBodySetup(mesh: Option<StaticMesh>) {
    mesh.Some? && mesh.value.valid && mesh.value.bodySetup.Some? && mesh.value.bodySetup.value.valid
  }

  /** After a Mesh or LOD edit of a Mesh-type component with a valid mesh that has render
      LODs, the LOD is one the render data has, so setup generation can read it. */
  lemma ClampedLODIsValidIndex(m: StaticMesh, lod: int)
    requires NumLODs(m) > 0
    ensures 0 <= ClampInt(lod, 0, NumLODs(m) - 1) < NumLODs(m)
    ensures m.renderData.Some? && ClampInt(lod, 0, NumLODs(m) - 1) < |m.renderData.value|
  {
  }
}
