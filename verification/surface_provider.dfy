// The world-aligned water surface provider: water samples cached on a regular grid of
// sections, each section a (CellCount + 1)² lattice of vertices sampled lazily through the
// water-info getter and interpolated bilinearly inside each cell. Sections are kept in a list
// whose used sections come first; sections not used during a step are reclaimed at its end.

module SurfaceProvider {
  import opened Vectors
  import opened Engine
  import opened WaterPhysicsTypes

  /** The WaterInfoSection grid constants. */
  const CellSize: real := 200.0
  const CellCount: int := 100
  const InverseCellSize: real := 0.005
  const VertexRowCount: int := 101
  const VertexCount: int := 10201
  const SectionSize: real := 20000.0
  const InverseSectionSize: real := 0.00005

  /** The grid constants are related as their definitions in the source require. */
  lemma GridConstants()
    ensures VertexRowCount == CellCount + 1 && VertexCount == VertexRowCount * VertexRowCount
    ensures SectionSize == CellSize * CellCount as real
    ensures InverseCellSize * CellSize == 1.0 && InverseSectionSize * SectionSize == 1.0
  {
  }

  /** FlattenVertexIndex: row-major index of lattice vertex (x, y); it is a bijection between
      the lattice and [0, VertexCount). */
  function FlattenVertexIndex(x: int, y: int): (r: int)
    ensures 0 <= x <= CellCount && 0 <= y <= CellCount ==> 0 <= r < VertexCount
  {
    x + y * VertexRowCount
  }

  /** The flat index gives back the lattice coordinates, so distinct vertices never share a slot. */
  lemma FlattenVertexIndexInverse(x: int, y: int)
    requires 0 <= x <= CellCount && 0 <= y <= CellCount
    ensures FlattenVertexIndex(x, y) % VertexRowCount == x && FlattenVertexIndex(x, y) / VertexRowCount == y
  {
  }

  lemma FlattenVertexIndexInjective(x: int, y: int, x': int, y': int)
    requires 0 <= x <= CellCount && 0 <= y <= CellCount && 0 <= x' <= CellCount && 0 <= y' <= CellCount
    ensures FlattenVertexIndex(x, y) == FlattenVertexIndex(x', y') <==> x == x' && y == y'
  {
    FlattenVertexIndexInverse(x, y);
    FlattenVertexIndexInverse(x', y');
  }

  /** FMath::TruncToInt: rounds toward zero. */
  function TruncToInt(r: real): (n: int)
    ensures r >= 0.0 ==> n as real <= r < n as real + 1.0
    ensures r < 0.0 ==> n as real - 1.0 < r <= n as real
  {
    if r >= 0.0 then r.Floor else -((-r).Floor)
  }

  /** The cell coordinate of a relative location along one axis, clamped to [0, CellCount - 1]. */
  function CellIndex(rel: real): (n: int)
    ensures 0 <= n < CellCount
    ensures 0.0 <= rel < SectionSize ==> n as real * CellSize <= rel < (n + 1) as real * CellSize
  {
    ClampInt(TruncToInt(rel * InverseCellSize), 0, CellCount - 1)
  }

  /** The interpolation weight along one axis as the source computes it: the relative location
      times InverseSectionSize, i.e. the position within the whole section. */
  function CellAlphaAsWritten(rel: real): (a: real)
    ensures 0.0 <= rel < SectionSize ==> 0.0 <= a < 1.0
  {
    rel * InverseSectionSize
  }

  /** The interpolation weight along one axis as the cell interpolation needs it: the position
      within the cell, so that the weight is 0 at the cell's first vertex and tends to 1 at its
      second. */
  function CellAlpha(rel: real): (a: real)
    ensures 0.0 <= rel < SectionSize ==> 0.0 <= a < 1.0
    ensures 0.0 <= rel < SectionSize ==> rel == (CellIndex(rel) as real + a) * CellSize
  {
    rel * InverseCellSize - CellIndex(rel) as real
  }

  /** FourWayLerp: Lerp(Lerp(A, C, Y), Lerp(B, D, Y), X), with A at (0, 0), B at (1, 0),
      C at (0, 1) and D at (1, 1). */
  function FourWayLerp(a: Vec3, b: Vec3, c: Vec3, d: Vec3, x: real, y: real): Vec3 {
    Lerp(Lerp(a, c, y), Lerp(b, d, y), x)
  }

  /** At the four corners of the unit square FourWayLerp returns the corner's own value. */
  lemma FourWayLerpCorners(a: Vec3, b: Vec3, c: Vec3, d: Vec3)
    ensures FourWayLerp(a, b, c, d, 0.0, 0.0) == a
    ensures FourWayLerp(a, b, c, d, 1.0, 0.0) == b
    ensures FourWayLerp(a, b, c, d, 0.0, 1.0) == c
    ensures FourWayLerp(a, b, c, d, 1.0, 1.0) == d
  {
    LerpEndpoints(a, c);
    LerpEndpoints(b, d);
    LerpEndpoints(a, b);
    LerpEndpoints(c, d);
  }

  /** FWaterInfoVertex. */
  datatype WaterInfoVertex = WaterInfoVertex(isSet: bool, result: WaterInfoResult)

  /** A zeroed FWaterInfoVertex. */
  const UnsetVertex: WaterInfoVertex := WaterInfoVertex(false, DefaultWaterInfo)

  /** FWaterInfoCell: the four corner vertices (read through their pointers) and the weights. */
  datatype WaterInfoCell = WaterInfoCell(a: WaterInfoVertex, b: WaterInfoVertex, c: WaterInfoVertex, d: WaterInfoVertex, alphaX: real, alphaY: real)

  /** The result interpolated from a cell; GetSafeNormal is the parameter `safeNormal`. */
  function InterpolateCell(cell: WaterInfoCell, safeNormal: Vec3 -> Vec3): WaterInfoResult {
    WaterInfoResult(
      FourWayLerp(cell.a.result.waterSurfaceLocation, cell.b.result.waterSurfaceLocation,
                  cell.c.result.waterSurfaceLocation, cell.d.result.waterSurfaceLocation, cell.alphaX, cell.alphaY),
      safeNormal(FourWayLerp(cell.a.result.waterSurfaceNormal, cell.b.result.waterSurfaceNormal,
                             cell.c.result.waterSurfaceNormal, cell.d.result.waterSurfaceNormal, cell.alphaX, cell.alphaY)),
      FourWayLerp(cell.a.result.waterVelocity, cell.b.result.waterVelocity,
                  cell.c.result.waterVelocity, cell.d.result.waterVelocity, cell.alphaX, cell.alphaY))
  }

  /** IsInSection on plain values. */
  predicate InSection(isUsed: bool, sectionLocation: Vec3, location: Vec3) {
    var rel := Sub(location, sectionLocation);
    isUsed && 0.0 <= rel.x < SectionSize && 0.0 <= rel.y < SectionSize
  }

  /** The grid-aligned section origin for a location: its X and Y floored to a multiple of
      SectionSize, its Z kept. */
  function GridOrigin(location: Vec3): (o: Vec3)
    ensures InSection(true, o, location)
    ensures Aligned(o.x) && Aligned(o.y)
  {
    var gx := (location.x * InverseSectionSize).Floor;
    var gy := (location.y * InverseSectionSize).Floor;
    AlignedMultiple(gx);
    AlignedMultiple(gy);
    Vec3(gx as real * SectionSize, gy as real * SectionSize, location.z)
  }

  /** A coordinate that is a whole multiple of SectionSize. */
  predicate Aligned(v: real) {
    v == (v * InverseSectionSize).Floor as real * SectionSize
  }

  lemma AlignedMultiple(g: int)
    ensures Aligned(g as real * SectionSize)
  {
    assert g as real * SectionSize * InverseSectionSize == g as real;
  }

  /** Two sections on aligned origins that both contain a location have the same X and Y origin. */
  lemma AlignedSectionsCoincide(o1: Vec3, o2: Vec3, location: Vec3)
    requires Aligned(o1.x) && Aligned(o1.y) && Aligned(o2.x) && Aligned(o2.y)
    requires InSection(true, o1, location) && InSection(true, o2, location)
    ensures o1.x == o2.x && o1.y == o2.y
  {
    AlignedAxisCoincide(o1.x, o2.x, location.x);
    AlignedAxisCoincide(o1.y, o2.y, location.y);
  }

  lemma AlignedAxisCoincide(a: real, b: real, v: real)
    requires Aligned(a) && Aligned(b)
    requires 0.0 <= v - a < SectionSize && 0.0 <= v - b < SectionSize
    ensures a == b
  {
    var ga := (a * InverseSectionSize).Floor;
    var gb := (b * InverseSectionSize).Floor;
    assert SectionSize == 20000.0;
    assert -20000.0 < (ga - gb) as real * 20000.0 < 20000.0;
    assert -1 < ga - gb < 1;
  }

  /** Where lattice vertex (x, y) of a section at `origin` is sampled. */
  function LatticeLocation(origin: Vec3, x: int, y: int): Vec3 {
    Add(origin, Vec3(x as real * CellSize, y as real * CellSize, 0.0))
  }

  /** Where the vertex stored at flat index j of a section at `origin` is sampled. */
  function SlotLocation(origin: Vec3, j: int): Vec3 {
    LatticeLocation(origin, j % VertexRowCount, j / VertexRowCount)
  }

  /** From `before` to `after` the only changes to a section's buffer are unset vertices
      becoming set to the getter's sample at their own location. */
  ghost predicate Samples(origin: Vec3, before: seq<WaterInfoVertex>, after: seq<WaterInfoVertex>, component: ComponentId,
                          getter: (ComponentId, Vec3) -> WaterInfoResult)
  {
    |before| == |after| &&
    forall j :: 0 <= j < |after| ==>
      after[j] == before[j] ||
      (!before[j].isSet && after[j] == WaterInfoVertex(true, getter(component, SlotLocation(origin, j))))
  }

  lemma SamplesTransitive(origin: Vec3, v0: seq<WaterInfoVertex>, v1: seq<WaterInfoVertex>, v2: seq<WaterInfoVertex>,
                          component: ComponentId, getter: (ComponentId, Vec3) -> WaterInfoResult)
    requires Samples(origin, v0, v1, component, getter) && Samples(origin, v1, v2, component, getter)
    ensures Samples(origin, v0, v2, component, getter)
  {
  }

  lemma SamplesReflexive(origin: Vec3, buffer: seq<WaterInfoVertex>, component: ComponentId,
                         getter: (ComponentId, Vec3) -> WaterInfoResult)
    ensures Samples(origin, buffer, buffer, component, getter)
  {
  }

  /** The cell holding `location` in a section at `origin` with vertex buffer `buffer`. */
  function CellOf(buffer: seq<WaterInfoVertex>, origin: Vec3, location: Vec3): (cell: WaterInfoCell)
    requires |buffer| == VertexCount
    ensures var rel := Sub(location, origin);
      InSection(true, origin, location) ==>
        0.0 <= cell.alphaX < 1.0 && 0.0 <= cell.alphaY < 1.0 &&
        rel.x == (CellIndex(rel.x) as real + cell.alphaX) * CellSize &&
        rel.y == (CellIndex(rel.y) as real + cell.alphaY) * CellSize
  {
    var rel := Sub(location, origin);
    var x := CellIndex(rel.x);
    var y := CellIndex(rel.y);
    WaterInfoCell(buffer[FlattenVertexIndex(x, y)], buffer[FlattenVertexIndex(x + 1, y)],
                  buffer[FlattenVertexIndex(x, y + 1)], buffer[FlattenVertexIndex(x + 1, y + 1)],
                  CellAlpha(rel.x), CellAlpha(rel.y))
  }

  /** As written, the weight along an axis is the position within the whole section, so at a
      lattice vertex other than the section's first it is not 0: at relative X 200 (vertex 1
      of its row, which starts cell 1) the weight is 0.01, and whenever that cell's first two
      samples differ the interpolation there does not give back the vertex's own sample. */
  lemma CellAlphaAsWrittenOffVertex(a: Vec3, b: Vec3, c: Vec3, d: Vec3)
    requires a != b
    ensures CellIndex(CellSize) == 1 && CellIndex(0.0) == 0
    ensures CellAlphaAsWritten(CellSize) == 0.01 && CellAlphaAsWritten(0.0) == 0.0
    ensures FourWayLerp(a, b, c, d, CellAlphaAsWritten(CellSize), CellAlphaAsWritten(0.0)) != a
  {
    assert CellSize * InverseCellSize == 1.0;
    assert TruncToInt(1.0) == 1;
    FourWayLerpOffCorner(a, b, c, d, 0.01);
  }

  /** Off the first corner along X (on the cell's first edge), FourWayLerp moves away from it. */
  lemma FourWayLerpOffCorner(a: Vec3, b: Vec3, c: Vec3, d: Vec3, x: real)
    requires a != b && x != 0.0
    ensures FourWayLerp(a, b, c, d, x, 0.0) != a
  {
    LerpEndpoints(a, c);
    LerpEndpoints(b, d);
    assert FourWayLerp(a, b, c, d, x, 0.0) == Lerp(a, b, x);
  }

  /** With the weight taken within the cell, a lattice vertex lies at weight 0 of the cell it
      starts. */
  lemma CellAlphaAtVertex(n: int)
    requires 0 <= n < CellCount
    ensures CellIndex(n as real * CellSize) == n && CellAlpha(n as real * CellSize) == 0.0
  {
    assert n as real * CellSize * InverseCellSize == n as real;
    assert TruncToInt(n as real) == n;
  }

  /** At lattice vertex (x, y) the cell's first corner is that vertex, and the interpolation
      gives back exactly its sample (the normal through GetSafeNormal). */
  lemma CellOfAtVertex(buffer: seq<WaterInfoVertex>, origin: Vec3, x: int, y: int, safeNormal: Vec3 -> Vec3)
    requires |buffer| == VertexCount && 0 <= x < CellCount && 0 <= y < CellCount
    ensures var cell := CellOf(buffer, origin, LatticeLocation(origin, x, y));
      var r := cell.a.result;
      cell.a == buffer[FlattenVertexIndex(x, y)] &&
      InterpolateCell(cell, safeNormal) == WaterInfoResult(r.waterSurfaceLocation, safeNormal(r.waterSurfaceNormal), r.waterVelocity)
  {
    var rel := Sub(LatticeLocation(origin, x, y), origin);
    assert rel.x == x as real * CellSize && rel.y == y as real * CellSize;
    CellAlphaAtVertex(x);
    CellAlphaAtVertex(y);
    var cell := CellOf(buffer, origin, LatticeLocation(origin, x, y));
    assert cell.alphaX == 0.0 && cell.alphaY == 0.0;
    FourWayLerpCorners(cell.a.result.waterSurfaceLocation, cell.b.result.waterSurfaceLocation,
                       cell.c.result.waterSurfaceLocation, cell.d.result.waterSurfaceLocation);
    FourWayLerpCorners(cell.a.result.waterSurfaceNormal, cell.b.result.waterSurfaceNormal,
                       cell.c.result.waterSurfaceNormal, cell.d.result.waterSurfaceNormal);
    FourWayLerpCorners(cell.a.result.waterVelocity, cell.b.result.waterVelocity,
                       cell.c.result.waterVelocity, cell.d.result.waterVelocity);
  }

  predicate CellComplete(cell: WaterInfoCell) {
    cell.a.isSet && cell.b.isSet && cell.c.isSet && cell.d.isSet
  }

  /** FWaterInfoSection. */
  class WaterInfoSection {
    var isUsed: bool
    var sectionLocation: Vec3
    const vertices: array<WaterInfoVertex>

    /** FWaterInfoSection(InSectionLocation): a section initialised at the location. */
    constructor(location: Vec3)
      ensures isUsed && sectionLocation == location
      ensures fresh(vertices) && vertices.Length == VertexCount
      ensures forall v :: 0 <= v < VertexCount ==> vertices[v] == UnsetVertex
    {
      isUsed := true;
      sectionLocation := location;
      vertices := new WaterInfoVertex[VertexCount](_ => UnsetVertex);
    }

    /** InitAtLocation: used, at the location, every vertex unset. */
    method InitAtLocation(location: Vec3)
      modifies this, vertices
      ensures isUsed && sectionLocation == location
      ensures forall v :: 0 <= v < vertices.Length ==> vertices[v] == UnsetVertex
    {
      isUsed := true;
      sectionLocation := location;
      forall v | 0 <= v < vertices.Length {
        vertices[v] := UnsetVertex;
      }
    }

    /** Where lattice vertex (x, y) of this section is sampled. */
    function VertexLocation(x: int, y: int): Vec3
      reads this
    {
      LatticeLocation(sectionLocation, x, y)
    }

    predicate IsInSection(location: Vec3)
      reads this
    {
      InSection(isUsed, sectionLocation, location)
    }

    /** CalculateVertexInfoForIndex: the getter is asked for a vertex only while it is unset,
        at the vertex's location; the answer is stored and the vertex marked set. */
    method CalculateVertexInfoForIndex(x: int, y: int, component: ComponentId, getter: (ComponentId, Vec3) -> WaterInfoResult)
      returns (v: WaterInfoVertex)
      requires vertices.Length == VertexCount && 0 <= x <= CellCount && 0 <= y <= CellCount
      modifies vertices
      ensures var i := FlattenVertexIndex(x, y);
        v.isSet && v == vertices[i] &&
        (old(vertices[i].isSet) ==> v == old(vertices[i])) &&
        (!old(vertices[i].isSet) ==> v.result == getter(component, VertexLocation(x, y)))
      ensures forall j :: 0 <= j < vertices.Length && j != FlattenVertexIndex(x, y) ==> vertices[j] == old(vertices[j])
      ensures Samples(sectionLocation, old(vertices[..]), vertices[..], component, getter)
    {
      var i := FlattenVertexIndex(x, y);
      FlattenVertexIndexInverse(x, y);
      if !vertices[i].isSet {
        var location := VertexLocation(x, y);
        vertices[i] := WaterInfoVertex(true, getter(component, location));
      }
      v := vertices[i];
    }

    /** CalculateCellInfoAtLocation, with the cell weights measured within the cell. */
    method CalculateCellInfoAtLocation(location: Vec3, component: ComponentId, getter: (ComponentId, Vec3) -> WaterInfoResult)
      returns (cell: WaterInfoCell)
      requires vertices.Length == VertexCount
      modifies vertices
      ensures cell == CellAt(location) && CellSet(location)
      ensures Samples(sectionLocation, old(vertices[..]), vertices[..], component, getter)
    {
      var rel := Sub(location, sectionLocation);
      var x := CellIndex(rel.x);
      var y := CellIndex(rel.y);
      ghost var v0 := vertices[..];
      var a := CalculateVertexInfoForIndex(x, y, component, getter);
      ghost var v1 := vertices[..];
      var b := CalculateVertexInfoForIndex(x + 1, y, component, getter);
      ghost var v2 := vertices[..];
      SamplesTransitive(sectionLocation, v0, v1, v2, component, getter);
      var c := CalculateVertexInfoForIndex(x, y + 1, component, getter);
      ghost var v3 := vertices[..];
      SamplesTransitive(sectionLocation, v0, v2, v3, component, getter);
      var d := CalculateVertexInfoForIndex(x + 1, y + 1, component, getter);
      SamplesTransitive(sectionLocation, v0, v3, vertices[..], component, getter);
      cell := WaterInfoCell(a, b, c, d, CellAlpha(rel.x), CellAlpha(rel.y));
    }

    /** The cell of the lattice holding `location`, read from the current vertex buffer. */
    function CellAt(location: Vec3): WaterInfoCell
      requires vertices.Length == VertexCount
      reads this, vertices
    {
      CellOf(vertices[..], sectionLocation, location)
    }

    /** All four corners of the cell holding `location` have been sampled. */
    predicate CellSet(location: Vec3)
      requires vertices.Length == VertexCount
      reads this, vertices
    {
      CellComplete(CellAt(location))
    }
  }

  /** What the section search sees of a section: whether it is used and where it starts. */
  datatype SectionKey = SectionKey(isUsed: bool, location: Vec3)

  predicate KeyHolds(key: SectionKey, location: Vec3) {
    InSection(key.isUsed, key.location, location)
  }

  /** Some section of the layout holds the location. */
  predicate LayoutHolds(layout: seq<SectionKey>, location: Vec3) {
    exists k :: 0 <= k < |layout| && KeyHolds(layout[k], location)
  }

  /** The section list's layout is well formed: used sections come first, sit on grid-aligned
      origins and never share an origin. */
  predicate LayoutValid(layout: seq<SectionKey>) {
    (forall i, j :: 0 <= i < j < |layout| && layout[j].isUsed ==> layout[i].isUsed) &&
    (forall k :: 0 <= k < |layout| && layout[k].isUsed ==> Aligned(layout[k].location.x) && Aligned(layout[k].location.y)) &&
    (forall i, j :: 0 <= i < j < |layout| && layout[i].isUsed && layout[j].isUsed ==>
       layout[i].location.x != layout[j].location.x || layout[i].location.y != layout[j].location.y)
  }

  /** The number of used sections at the head of the layout. */
  function UsedCount(layout: seq<SectionKey>): (n: nat)
    ensures n <= |layout|
    ensures forall k :: 0 <= k < n ==> layout[k].isUsed
    ensures n < |layout| ==> !layout[n].isUsed
  {
    if layout == [] || !layout[0].isUsed then 0 else 1 + UsedCount(layout[1..])
  }

  /** In a valid layout exactly the sections before UsedCount are used. */
  lemma UsedCountSplits(layout: seq<SectionKey>)
    requires LayoutValid(layout)
    ensures forall k :: 0 <= k < |layout| ==> (layout[k].isUsed <==> k < UsedCount(layout))
  {
  }

  /** In a valid layout at most one section holds a location. */
  lemma LayoutHoldsOnce(layout: seq<SectionKey>, location: Vec3, i: int, j: int)
    requires LayoutValid(layout) && 0 <= i < |layout| && 0 <= j < |layout|
    requires KeyHolds(layout[i], location) && KeyHolds(layout[j], location)
    ensures i == j
  {
    if i != j {
      AlignedSectionsCoincide(layout[i].location, layout[j].location, location);
      assert false;
    }
  }

  /** Re-initialising the first unused section on the grid origin of a location no section
      holds keeps the layout valid. */
  lemma ReuseKeepsLayoutValid(layout: seq<SectionKey>, location: Vec3)
    requires LayoutValid(layout) && UsedCount(layout) < |layout| && !LayoutHolds(layout, location)
    ensures LayoutValid(layout[UsedCount(layout) := SectionKey(true, GridOrigin(location))])
    ensures UsedCount(layout[UsedCount(layout) := SectionKey(true, GridOrigin(location))]) == UsedCount(layout) + 1 ||
            UsedCount(layout) + 1 < |layout|
  {
    UsedCountSplits(layout);
    var u := UsedCount(layout);
    var key := SectionKey(true, GridOrigin(location));
    forall k | 0 <= k < |layout| && layout[k].isUsed
      ensures layout[k].location.x != key.location.x || layout[k].location.y != key.location.y
    {
      assert !KeyHolds(layout[k], location);
    }
  }

  /** Appending a section on the grid origin of a location no section holds to a fully used
      layout keeps it valid. */
  lemma AppendKeepsLayoutValid(layout: seq<SectionKey>, location: Vec3)
    requires LayoutValid(layout) && UsedCount(layout) == |layout| && !LayoutHolds(layout, location)
    ensures LayoutValid(layout + [SectionKey(true, GridOrigin(location))])
  {
    UsedCountSplits(layout);
    var key := SectionKey(true, GridOrigin(location));
    forall k | 0 <= k < |layout|
      ensures layout[k].location.x != key.location.x || layout[k].location.y != key.location.y
    {
      assert !KeyHolds(layout[k], location);
    }
  }

  /** A layout without used sections is valid. */
  lemma UnusedLayoutValid(layout: seq<SectionKey>)
    requires forall k :: 0 <= k < |layout| ==> !layout[k].isUsed
    ensures LayoutValid(layout)
  {
  }

  lemma BuffersDistinctPrefix(sections: seq<WaterInfoSection>, n: nat)
    requires BuffersDistinct(sections) && n <= |sections|
    ensures BuffersDistinct(sections[..n])
  {
  }

  /** A section with a full buffer of its own can join a list whose buffers are distinct. */
  lemma BuffersDistinctAppend(sections: seq<WaterInfoSection>, section: WaterInfoSection)
    requires BuffersDistinct(sections) && section.vertices.Length == VertexCount
    requires forall k :: 0 <= k < |sections| ==> sections[k] != section && sections[k].vertices != section.vertices
    ensures BuffersDistinct(sections + [section])
  {
  }

  /** The layout of a section list. */
  ghost function Layout(sections: seq<WaterInfoSection>): (layout: seq<SectionKey>)
    reads sections
    ensures |layout| == |sections|
    ensures forall k :: 0 <= k < |sections| ==> layout[k] == SectionKey(sections[k].isUsed, sections[k].sectionLocation)
  {
    seq(|sections|, k requires 0 <= k < |sections| reads sections => SectionKey(sections[k].isUsed, sections[k].sectionLocation))
  }

  /** Every section holds a full vertex buffer, and no two share a section or a buffer. */
  predicate BuffersDistinct(sections: seq<WaterInfoSection>) {
    (forall k :: 0 <= k < |sections| ==> sections[k].vertices.Length == VertexCount) &&
    (forall i, j :: 0 <= i < j < |sections| ==> sections[i] != sections[j] && sections[i].vertices != sections[j].vertices)
  }

  /** A section as a value: whether it is used, its origin and its vertex buffer. */
  datatype SectionView = SectionView(isUsed: bool, location: Vec3, buffer: seq<WaterInfoVertex>)

  /** A section freshly set up for a location: used, on the location's grid origin, unsampled. */
  function FreshSection(location: Vec3): SectionView {
    SectionView(true, GridOrigin(location), seq(VertexCount, _ => UnsetVertex))
  }

  /** A used section stays used, keeps its origin and keeps every sample it had. */
  predicate KeepsSection(s0: SectionView, s1: SectionView) {
    s1.isUsed && s1.location == s0.location && |s1.buffer| == |s0.buffer| &&
    forall w :: 0 <= w < |s0.buffer| && s0.buffer[w].isSet ==> s1.buffer[w] == s0.buffer[w]
  }

  /** From one cache state to a later one, every used section is kept at its place. */
  predicate ViewGrows(v0: seq<SectionView>, v1: seq<SectionView>) {
    |v0| <= |v1| && forall j :: 0 <= j < |v0| && v0[j].isUsed ==> KeepsSection(v0[j], v1[j])
  }

  lemma ViewGrowsTransitive(v0: seq<SectionView>, v1: seq<SectionView>, v2: seq<SectionView>)
    requires ViewGrows(v0, v1) && ViewGrows(v1, v2)
    ensures ViewGrows(v0, v2)
  {
  }

  /** Sampling into one section's buffer lets the cache grow. */
  lemma SamplingGrows(v: seq<SectionView>, i: nat, buffer: seq<WaterInfoVertex>, component: ComponentId,
                      getter: (ComponentId, Vec3) -> WaterInfoResult)
    requires i < |v| && Samples(v[i].location, v[i].buffer, buffer, component, getter)
    ensures ViewGrows(v, v[i := SectionView(v[i].isUsed, v[i].location, buffer)])
  {
  }

  /** Setting up an unused section lets the cache grow. */
  lemma UnusedSectionGrows(v: seq<SectionView>, i: nat, location: Vec3)
    requires i < |v| && !v[i].isUsed
    ensures ViewGrows(v, v[i := FreshSection(location)])
  {
  }

  /** `result` is the interpolation of the cell holding `location` in section `holder` of the
      cache, which holds the location and has sampled the cell's four corners. */
  predicate AnsweredIn(view: seq<SectionView>, location: Vec3, holder: nat, result: WaterInfoResult, safeNormal: Vec3 -> Vec3) {
    holder < |view| && |view[holder].buffer| == VertexCount &&
    InSection(view[holder].isUsed, view[holder].location, location) &&
    CellComplete(CellOf(view[holder].buffer, view[holder].location, location)) &&
    result == InterpolateCell(CellOf(view[holder].buffer, view[holder].location, location), safeNormal)
  }

  /** Answers stay answers while the cache grows. */
  lemma AnswersKept(v0: seq<SectionView>, v1: seq<SectionView>, locations: seq<Vec3>, holders: seq<nat>,
                    results: seq<WaterInfoResult>, safeNormal: Vec3 -> Vec3)
    requires ViewGrows(v0, v1) && |locations| == |holders| == |results|
    requires forall k :: 0 <= k < |locations| ==> AnsweredIn(v0, locations[k], holders[k], results[k], safeNormal)
    ensures forall k :: 0 <= k < |locations| ==> AnsweredIn(v1, locations[k], holders[k], results[k], safeNormal)
  {
    forall k | 0 <= k < |locations|
      ensures AnsweredIn(v1, locations[k], holders[k], results[k], safeNormal)
    {
      AnswerKept(v0, v1, locations[k], holders[k], results[k], safeNormal);
    }
  }

  lemma AnswerKept(v0: seq<SectionView>, v1: seq<SectionView>, location: Vec3, holder: nat,
                   result: WaterInfoResult, safeNormal: Vec3 -> Vec3)
    requires ViewGrows(v0, v1) && AnsweredIn(v0, location, holder, result, safeNormal)
    ensures AnsweredIn(v1, location, holder, result, safeNormal)
  {
    var s0 := v0[holder];
    var s1 := v1[holder];
    assert KeepsSection(s0, s1);
    var rel := Sub(location, s0.location);
    var x := CellIndex(rel.x);
    var y := CellIndex(rel.y);
    assert s1.buffer[FlattenVertexIndex(x, y)] == s0.buffer[FlattenVertexIndex(x, y)];
    assert s1.buffer[FlattenVertexIndex(x + 1, y)] == s0.buffer[FlattenVertexIndex(x + 1, y)];
    assert s1.buffer[FlattenVertexIndex(x, y + 1)] == s0.buffer[FlattenVertexIndex(x, y + 1)];
    assert s1.buffer[FlattenVertexIndex(x + 1, y + 1)] == s0.buffer[FlattenVertexIndex(x + 1, y + 1)];
  }

  /** FWorldAlignedWaterSurfaceProvider: the sections, used ones first. The source keeps them in
      a doubly linked list; here they are a sequence of section objects. */
  class WorldAlignedWaterSurfaceProvider {
    var sections: seq<WaterInfoSection>
    ghost var Repr: set<object>

    ghost predicate Valid()
      reads this, Repr
    {
      this in Repr &&
      (forall k :: 0 <= k < |sections| ==> sections[k] in Repr && sections[k].vertices in Repr) &&
      BuffersDistinct(sections) && LayoutValid(Layout(sections))
    }

    constructor()
      ensures Valid() && fresh(Repr) && sections == []
    {
      sections := [];
      Repr := {this};
    }

    /** The cache as values: each section's flag, origin and vertex buffer. */
    ghost function View(): (view: seq<SectionView>)
      requires Valid()
      reads this, Repr
      ensures |view| == |sections|
      ensures forall k :: 0 <= k < |sections| ==>
        view[k] == SectionView(sections[k].isUsed, sections[k].sectionLocation, sections[k].vertices[..])
    {
      seq(|sections|, k requires 0 <= k < |sections| && sections[k] in Repr && sections[k].vertices in Repr reads this, Repr =>
        SectionView(sections[k].isUsed, sections[k].sectionLocation, sections[k].vertices[..]))
    }

    /** CalculateVerticesWaterInfo: one result per vertex, in order. Every result is the
        interpolation, in the cache as it stands at the end, of the cell holding its vertex in
        the one used section holding it: sampling later vertices never alters an earlier
        answer. */
    method CalculateVerticesWaterInfo(vertexList: seq<Vec3>, component: ComponentId,
                                      getter: (ComponentId, Vec3) -> WaterInfoResult, safeNormal: Vec3 -> Vec3)
      returns (out: seq<WaterInfoResult>, ghost holders: seq<nat>)
      requires Valid()
      modifies Repr
      ensures Valid() && fresh(Repr - old(Repr))
      ensures |out| == |vertexList| == |holders|
      ensures forall k :: 0 <= k < |out| ==> AnsweredIn(View(), vertexList[k], holders[k], out[k], safeNormal)
    {
      out := [];
      holders := [];
      var i := 0;
      while i < |vertexList|
        invariant Valid() && fresh(Repr - old(Repr))
        invariant 0 <= i <= |vertexList| && |out| == i == |holders|
        invariant forall k :: 0 <= k < i ==> AnsweredIn(View(), vertexList[k], holders[k], out[k], safeNormal)
      {
        ghost var before := View();
        var r, idx := CalculateWaterInfoAtLocation(vertexList[i], component, getter, safeNormal);
        AnswersKept(before, View(), vertexList[..i], holders, out, safeNormal);
        out := out + [r];
        holders := holders + [idx];
        i := i + 1;
      }
    }

    /** CalculateWaterInfoAtLocation: the section holding the location is found or set up
        (FindSection), and the four corner samples of the location's cell are interpolated. */
    method CalculateWaterInfoAtLocation(location: Vec3, component: ComponentId,
                                        getter: (ComponentId, Vec3) -> WaterInfoResult, safeNormal: Vec3 -> Vec3)
      returns (r: WaterInfoResult, ghost idx: nat)
      requires Valid()
      modifies Repr
      ensures Valid() && fresh(Repr - old(Repr))
      ensures AnsweredIn(View(), location, idx, r, safeNormal)
      ensures ViewGrows(old(View()), View())
      ensures old(|sections|) <= |sections| <= old(|sections|) + 1 && sections[..old(|sections|)] == old(sections)
    {
      ghost var v0 := View();
      var current := FindSection(location);
      idx := current;
      ghost var v1 := View();
      var cell := SampleCell(current, location, component, getter);
      r := InterpolateCell(cell, safeNormal);
      SamplingGrows(v1, current, sections[current].vertices[..], component, getter);
      ViewGrowsTransitive(v0, v1, View());
    }

    /** The cell of section `current` holding the location, its corners sampled. */
    method SampleCell(current: nat, location: Vec3, component: ComponentId, getter: (ComponentId, Vec3) -> WaterInfoResult)
      returns (cell: WaterInfoCell)
      requires Valid() && current < |sections|
      modifies sections[current].vertices
      ensures Valid()
      ensures cell == CellOf(sections[current].vertices[..], sections[current].sectionLocation, location)
      ensures CellComplete(cell)
      ensures Samples(sections[current].sectionLocation, old(sections[current].vertices[..]), sections[current].vertices[..], component, getter)
      ensures View() == old(View())[current := SectionView(sections[current].isUsed, sections[current].sectionLocation, sections[current].vertices[..])]
    {
      ghost var layout := Layout(sections);
      ghost var view := View();
      var section := sections[current];
      cell := section.CalculateCellInfoAtLocation(location, component, getter);
      assert Layout(sections) == layout;
      forall k | 0 <= k < |sections| && k != current
        ensures sections[k].vertices[..] == view[k].buffer
      {
        assert sections[k].vertices != section.vertices;
      }
      assert View() == view[current := SectionView(section.isUsed, section.sectionLocation, section.vertices[..])];
    }

    /** The section search of CalculateWaterInfoAtLocation: a used section holding the location
        is kept as it is; otherwise the first unused section is re-initialised, or a section
        appended, on the location's grid origin. Its retry branches (another thread claimed the
        unused section, or appended a section holding the location) cannot be taken here, where
        the search runs alone. */
    method FindSection(location: Vec3) returns (current: nat)
      requires Valid()
      modifies Repr
      ensures Valid() && fresh(Repr - old(Repr))
      ensures current < |sections| && sections[current].IsInSection(location)
      ensures old(|sections|) <= |sections| && sections[..old(|sections|)] == old(sections)
      ensures ViewGrows(old(View()), View())
      ensures old(LayoutHolds(Layout(sections), location)) ==> View() == old(View())
      ensures !old(LayoutHolds(Layout(sections), location)) ==>
        current == old(UsedCount(Layout(sections))) &&
        (current < old(|sections|) ==> View() == old(View())[current := FreshSection(location)]) &&
        (current == old(|sections|) ==> View() == old(View()) + [FreshSection(location)])
    {
      ghost var v0 := View();
      var unused, found := ScanSections(location);
      if found >= 0 {
        current := found;
      } else if unused >= 0 {
        ReuseSection(unused, location);
        current := unused;
        UnusedSectionGrows(v0, unused, location);
      } else {
        AppendSection(location);
        current := |sections| - 1;
      }
    }

    /** The list walk of CalculateWaterInfoAtLocation: it stops at the first unused section or
        at the first section holding the location. */
    method ScanSections(location: Vec3) returns (unused: int, found: int)
      requires Valid()
      ensures unused < 0 || found < 0
      ensures found >= 0 ==> found < |sections| && sections[found].IsInSection(location)
      ensures found < 0 ==> !LayoutHolds(Layout(sections), location)
      ensures found < 0 && unused >= 0 ==> unused == UsedCount(Layout(sections)) < |sections|
      ensures found < 0 && unused < 0 ==> UsedCount(Layout(sections)) == |sections|
    {
      ghost var layout := Layout(sections);
      UsedCountSplits(layout);
      var k := 0;
      unused := -1;
      found := -1;
      while k < |sections| && unused < 0 && found < 0
        invariant 0 <= k <= |sections|
        invariant forall j :: 0 <= j < k ==> layout[j].isUsed && !KeyHolds(layout[j], location)
        invariant unused < 0 || (unused == k < |sections| && !layout[k].isUsed)
        invariant found < 0 || (found == k < |sections| && KeyHolds(layout[k], location))
        invariant unused < 0 || found < 0
        decreases |sections| - k, if unused < 0 && found < 0 then 1 else 0
      {
        if !sections[k].isUsed {
          unused := k;
        } else if sections[k].IsInSection(location) {
          found := k;
        } else {
          k := k + 1;
        }
      }
    }

    /** The first unused section, re-initialised on the location's grid origin. */
    method ReuseSection(unused: int, location: Vec3)
      requires Valid() && !LayoutHolds(Layout(sections), location)
      requires unused == UsedCount(Layout(sections)) < |sections|
      modifies Repr
      ensures Valid() && Repr == old(Repr) && sections == old(sections)
      ensures Layout(sections) == old(Layout(sections))[unused := SectionKey(true, GridOrigin(location))]
      ensures View() == old(View())[unused := FreshSection(location)]
    {
      ghost var layout := Layout(sections);
      ghost var view := View();
      ReuseKeepsLayoutValid(layout, location);
      sections[unused].InitAtLocation(GridOrigin(location));
      assert Layout(sections) == layout[unused := SectionKey(true, GridOrigin(location))];
      assert Valid();
      forall k | 0 <= k < |sections| && k != unused
        ensures sections[k].vertices[..] == view[k].buffer
      {
        assert sections[k].vertices != sections[unused].vertices;
      }
      assert sections[unused].vertices[..] == seq(VertexCount, _ => UnsetVertex);
      assert View() == view[unused := FreshSection(location)];
    }

    /** A new section on the location's grid origin, appended at the tail. */
    method AppendSection(location: Vec3)
      requires Valid() && !LayoutHolds(Layout(sections), location)
      requires UsedCount(Layout(sections)) == |sections|
      modifies this
      ensures Valid() && fresh(Repr - old(Repr))
      ensures |sections| == old(|sections|) + 1 && sections[..old(|sections|)] == old(sections)
      ensures fresh(sections[old(|sections|)])
      ensures View() == old(View()) + [FreshSection(location)]
    {
      ghost var layout := Layout(sections);
      ghost var view := View();
      AppendKeepsLayoutValid(layout, location);
      var section := new WaterInfoSection(GridOrigin(location));
      BuffersDistinctAppend(sections, section);
      sections := sections + [section];
      Repr := Repr + {section, section.vertices};
      assert Layout(sections) == layout + [SectionKey(true, GridOrigin(location))];
      assert Valid();
      forall k | 0 <= k < |view|
        ensures sections[k].vertices[..] == view[k].buffer
      {
      }
      assert section.vertices[..] == seq(VertexCount, _ => UnsetVertex);
      assert View() == view + [FreshSection(location)];
    }

    /** EndStepScene: the sections unused during the step are dropped, and the used ones are
        kept in order and flagged unused for the next step. */
    method EndStepScene()
      requires Valid()
      modifies this`sections, sections`isUsed
      ensures Valid() && Repr == old(Repr)
      ensures sections == old(sections[..UsedCount(Layout(sections))])
      ensures forall k :: 0 <= k < |sections| ==> !sections[k].isUsed
    {
      ghost var n := UsedCount(Layout(sections));
      UsedCountSplits(Layout(sections));
      var kept: seq<WaterInfoSection> := [];
      var k := 0;
      while k < |sections|
        invariant 0 <= k <= |sections| && sections == old(sections) && Repr == old(Repr)
        invariant kept == sections[..if k < n then k else n]
        invariant forall j :: 0 <= j < |sections| ==> sections[j].isUsed == (k <= j < n)
      {
        var section := sections[k];
        if section.isUsed {
          section.isUsed := false;
          kept := kept + [section];
        }
        k := k + 1;
      }
      BuffersDistinctPrefix(sections, n);
      sections := kept;
      UnusedLayoutValid(Layout(sections));
    }
  }
}
