# Water physics: a Dafny model of the submersion-geometry core

This project models, in Dafny, the core of the WaterPhysics plugin for Unreal Engine. The
plugin floats rigid bodies on a water surface. Each simulation step runs the same pipeline for
every body:

1. The body's collision primitives (spheres, boxes, capsules, meshes) become one indexed
   triangle mesh.
2. The mesh is tessellated.
3. Each vertex is sampled against the water through a cache of world-aligned grid sections.
4. Each triangle is clipped against the sampled surface into submerged pieces, each piece
   tagged with its source triangle.
5. Forces are accumulated per triangle into double-buffered per-body slots.

Around this pipeline sit the scene registry of bodies, the settings merge and actor filters,
and a handful of small lifecycle state machines. These are the water-physics actor's
pending-removal queue, the water-body overlap lists, the water volume's overlap
reconciliation, the Oceanology overlap tracker and version gating, and the `major.minor.patch`
reading of plugin versions.

The model follows the source file by file. Here is where each part lives:

| file | module | what it models |
|---|---|---|
| `vectors.dfy`, `piece_geometry.dfy` | `Vectors`, `PieceGeometry` | vectors over reals, and the orientation algebra the winding proofs use |
| `water_physics_math.dfy` | `WaterPhysicsMath` | the triangle helpers, rigid-body velocity, the element transforms with their minimum sizes, and the convex-mesh mirror and winding flip |
| `tessellation.dfy` | `Tessellation` | the generic tessellator, as a class over a vertex array and a triangle array, with its two modes and the edge-key deduplication |
| `triangulation.dfy` | `Triangulation` | the box, icosphere and icocapsule tables, their 1-to-4 subdivision, and the concatenation of a collision setup into one mesh |
| `clipper.dfy` | `Submersion` | the submersion clipper |
| `water_physics_scene.dfy` | `PhysicsScene` | the scene registry, the two-slot triangle buffers, force clamping, vertex water fetching and the synchronous pruning |
| `surface_provider.dfy` | `SurfaceProvider` | the world-aligned section cache |
| `water_physics_types.dfy`, `component_filters.dfy`, `settings_component.dfy` | `WaterPhysicsTypes`, `ComponentFilters`, `SettingsComponent` | the settings records and their per-field merge, the filter lists and the layered settings gather |
| `scene_component.dfy`, `collision_component.dfy` | `SceneComponent`, `CollisionComponent` | the scene component's API and the collision component |
| `water_physics_actor.dfy`, `actor_batches.dfy` | `PhysicsActor`, `ActorBatches` | the water-physics actor's add/remove queue and batches of adds and removes |
| `water_body_base.dfy` | `WaterBodies` | the water-body base |
| `water_volume.dfy` | `WaterVolumes` | the water volume |
| `oceanology.dfy`, `plugin_versions.dfy` | `Oceanology`, `PluginVersions` | the Oceanology actor and the version reading of both integration modules |
| `engine_model.dfy` | `Engine` | the engine world as the model sees it: actors, components and classes as ids, with their validity, classes, tags, components and mobility |

## How the model represents the source

- Code that changes state step by step becomes a Dafny `class` with the source's fields and
  methods with loops. The tessellator's arrays, the scene registry, the section cache, the
  collision component and the actors are modelled this way.
- Each such method is proved against a specification function on the old state.
- The expression-level helpers become functions, with lemmas for their properties.
- Coordinates, depths, areas and forces are `real`s. Floating-point rounding is not
  modelled.
- Actors, components and classes are opaque identifiers. The engine's answers about them
  (validity, classes, attachment parents, overlapping actors) are parameters.
- Engine notifications and Blueprint events become recorded notices in the state.
- The water getter is a function parameter.
- Concurrency is modelled sequentially: the parallel loops, the locks, and the retries that
  only contention can trigger.

## Model

| member | source | states |
|---|---|---|
| WaterPhysicsTypes.NewSettings | Source/WaterPhysics/Public/WaterPhysicsTypes.h:173-203 | a freshly constructed settings record has every override flag cleared |
| WaterPhysicsTypes.MergeFieldwise | Source/WaterPhysics/Private/WaterPhysicsTypes.cpp:5-73 | each of the 26 fields of a merge is the one-field rule applied to that field of the two inputs, independently of the others |
| WaterPhysicsTypes.MergeFieldOutcome | Source/WaterPhysics/Private/WaterPhysicsTypes.cpp:5-73 | a field set in the override takes the override's value; otherwise one set in the default keeps the default's; otherwise it stays unset with the constructor's value |
| WaterPhysicsTypes.MergeAssociative | Source/WaterPhysics/Private/WaterPhysicsTypes.cpp:5-73 | merging is associative, so a stack of layers may be folded in either grouping |
| WaterPhysicsTypes.MergeNormalized | Source/WaterPhysics/Private/WaterPhysicsTypes.cpp:5-73 | every merge result holds the constructor's value in each unset field |
| WaterPhysicsTypes.MergeIdentity | Source/WaterPhysics/Private/WaterPhysicsTypes.cpp:5-73 | a fresh record is a left and right identity of the merge on such settings, and merging a record with itself gives it back |
| WaterPhysicsTypes.MergeLayersLastWins | Source/WaterPhysics/Private/WaterPhysicsSettingsComponent.cpp:79-93 | in a folded stack of layers a field is set iff some layer sets it, takes the value of the last layer that sets it, and with no later setter keeps the first layer's field |
| WaterPhysicsTypes.NumCollisionElems | Source/WaterPhysics/Public/WaterPhysicsTypes.h:473 | the element count is zero exactly for an empty setup and is at least the size of each element list |
| WaterPhysicsMath.CentroidProperties | Source/WaterPhysics/Public/WaterPhysicsMath.h:8-20 | the centroid equals the element average, ignores the order of the vertices, and is the point whose offsets to the three vertices sum to zero |
| WaterPhysicsMath.NormalWinding | Source/WaterPhysics/Public/WaterPhysicsMath.h:22-32 | the normal direction keeps its sign under a rotation of the vertex order and flips under a reversal; the area vector is its opposite, so the area ignores winding |
| WaterPhysicsMath.AreaM2ExceedsExact | Source/WaterPhysics/Public/WaterPhysicsMath.h:28-38 | the squared comparison used for the tessellation area test decides exactly whether the area in square metres exceeds the maximum |
| WaterPhysicsMath.RigidBodyVelocity | Source/WaterPhysics/Public/WaterPhysicsMath.h:40-49 | the centre of mass moves with the linear velocity, two points differ in velocity by the angular velocity crossed with their offset, and the m/s form is a hundredth of the cm/s form |
| WaterPhysicsMath.AddForceCommutes | Source/WaterPhysics/Public/WaterPhysicsMath.h:87-101 | two AddForce calls give the same force and torque in either order |
| WaterPhysicsMath.AddForcesIsAccumulate | Source/WaterPhysics/Public/WaterPhysicsMath.h:87-107 | accumulating forces from zero and adding the total with += gives the same result as adding each force directly |
| WaterPhysicsMath.AddForcesConcat | Source/WaterPhysics/Public/WaterPhysicsMath.h:87-101 | adding two batches of forces in turn is adding their concatenation |
| WaterPhysicsMath.OrderIndependent | Source/WaterPhysics/Public/WaterPhysicsMath.h:87-107 | the total force and torque do not depend on the order of the batches of AddForce calls |
| WaterPhysicsMath.ScaledSphereRadius | Source/WaterPhysics/Private/WaterPhysicsMath.cpp:15-20 | the scaled radius is at least the minimum sphere radius and is either that minimum or the radius times the smallest absolute scale |
| WaterPhysicsMath.ScaledBoxExtent | Source/WaterPhysics/Private/WaterPhysicsMath.cpp:22-32 | on each axis the extent is at least the minimum and is either the minimum or half the extent times the absolute scale |
| WaterPhysicsMath.ScaledSphyl | Source/WaterPhysics/Private/WaterPhysicsMath.cpp:34-44 | the capsule radius and half-height respect their minima; the radius exceeds the scaled half-height only when it is the minimum; and the radius and half-height add up to the scaled half-height unless the half-height is the minimum |
| WaterPhysicsMath.TransformMeshElem | Source/WaterPhysics/Private/WaterPhysicsMath.cpp:46-50 | every vertex is replaced by its transformed position, in order, and the index list is untouched |
| WaterPhysicsMath.MirrorFlipProperties | Source/WaterPhysics/Private/WaterPhysicsMath.cpp:91-102 | flipping swaps the first and last index of every triangle; mirroring twice and flipping twice restore the mesh; a well-formed mesh stays well formed |
| WaterPhysicsMath.ExtractConvexElemTriangles | Source/WaterPhysics/Private/WaterPhysicsMath.cpp:52-107 | without mirroring, the mesh is the element's vertex and index data; with it, every X is negated and every triangle's winding reversed |
| SurfaceProvider.GridConstants | Source/WaterPhysics/Private/WorldAlignedWaterSurfaceProvider.h:8-14 | the row count is the cell count plus one, a section holds the row count squared vertices and spans CellSize times CellCount, and the inverse constants are the inverses |
| SurfaceProvider.FlattenVertexIndex | Source/WaterPhysics/Private/WorldAlignedWaterSurfaceProvider.h:77 | a lattice coordinate inside the section gives a slot of the vertex buffer |
| SurfaceProvider.FlattenVertexIndexInverse | Source/WaterPhysics/Private/WorldAlignedWaterSurfaceProvider.h:77 | the flat slot gives back its x as the remainder and its y as the quotient by the row count |
| SurfaceProvider.FlattenVertexIndexInjective | Source/WaterPhysics/Private/WorldAlignedWaterSurfaceProvider.h:77 | two lattice coordinates share a slot iff they are the same coordinate |
| SurfaceProvider.TruncToInt | Source/WaterPhysics/Private/WorldAlignedWaterSurfaceProvider.h:103-104 | truncation rounds toward zero: down for non-negative values, up for negative ones |
| SurfaceProvider.CellIndex | Source/WaterPhysics/Private/WorldAlignedWaterSurfaceProvider.h:100-106 | the clamped cell coordinate is always a valid cell, and for a location inside the section it is the cell that contains it |
| SurfaceProvider.CellAlphaAsWritten | Source/WaterPhysics/Private/WorldAlignedWaterSurfaceProvider.h:114-115 | the weight as written, the relative location over the section size, lies in [0, 1) inside the section |
| SurfaceProvider.CellAlpha | Source/WaterPhysics/Private/WorldAlignedWaterSurfaceProvider.h:114-115 | the corrected weight lies in [0, 1) and places the location exactly: cell index plus weight, times the cell size |
| SurfaceProvider.FourWayLerpCorners | Source/WaterPhysics/Private/WorldAlignedWaterSurfaceProvider.cpp:8-12 | the four-way interpolation returns A, B, C and D at the four corners of the unit square |
| SurfaceProvider.GridOrigin | Source/WaterPhysics/Private/WorldAlignedWaterSurfaceProvider.cpp:117-121 | the origin chosen for a new section lies on the section grid and the new section holds the location |
| SurfaceProvider.AlignedSectionsCoincide | Source/WaterPhysics/Private/WorldAlignedWaterSurfaceProvider.h:122-128 | two grid-aligned sections that both hold a location have the same origin, so a location has one section |
| SurfaceProvider.CellOf | Source/WaterPhysics/Private/WorldAlignedWaterSurfaceProvider.h:97-118 | the cell for a location in the section has in-cell weights in [0, 1) that, with its cell indices, give back the location (the corrected weights; see Findings) |
| SurfaceProvider.CellAlphaAsWrittenOffVertex | Source/WaterPhysics/Private/WorldAlignedWaterSurfaceProvider.h:114-115 | with the weights as written a location exactly on lattice vertex (1, 0) gets weight 0.01, so the interpolation does not return that vertex's own sample |
| SurfaceProvider.CellAlphaAtVertex | Source/WaterPhysics/Private/WorldAlignedWaterSurfaceProvider.h:100-115 | with the corrected weight a location on lattice line n lies in cell n at weight 0 |
| SurfaceProvider.CellOfAtVertex | Source/WaterPhysics/Private/WorldAlignedWaterSurfaceProvider.cpp:151-181 | at a lattice vertex the cell's first corner is that vertex and the interpolated answer is its own sample, with the normal made safe |
| SurfaceProvider.WaterInfoSection.constructor | Source/WaterPhysics/Private/WorldAlignedWaterSurfaceProvider.h:65-68 | a new section is used, sits at the location and has every vertex unset |
| SurfaceProvider.WaterInfoSection.InitAtLocation | Source/WaterPhysics/Private/WorldAlignedWaterSurfaceProvider.h:70-75 | the section becomes used at the new location with every vertex unset |
| SurfaceProvider.WaterInfoSection.CalculateVertexInfoForIndex | Source/WaterPhysics/Private/WorldAlignedWaterSurfaceProvider.h:79-95 | a vertex already set is returned unchanged; an unset one is sampled once at its own lattice location and kept; no other vertex changes |
| SurfaceProvider.WaterInfoSection.CalculateCellInfoAtLocation | Source/WaterPhysics/Private/WorldAlignedWaterSurfaceProvider.h:97-118 | the cell holding the location, with the corrected in-cell weights of CellOf, is returned with its four corners sampled, and the buffer only gains samples |
| SurfaceProvider.UsedCount | Source/WaterPhysics/Private/WorldAlignedWaterSurfaceProvider.cpp:96-102 | the used sections form a prefix of the list, and the first section after it is unused |
| SurfaceProvider.UsedCountSplits | Source/WaterPhysics/Private/WorldAlignedWaterSurfaceProvider.cpp:98-101 | in a well-formed list a section is used iff it lies before the first unused one, which is why the search may stop there |
| SurfaceProvider.LayoutHoldsOnce | Source/WaterPhysics/Private/WorldAlignedWaterSurfaceProvider.h:122-128 | in a well-formed list at most one section holds a given location |
| SurfaceProvider.ReuseKeepsLayoutValid | Source/WaterPhysics/Private/WorldAlignedWaterSurfaceProvider.cpp:123-130 | taking the first unused section for a location no section holds keeps the list well formed |
| SurfaceProvider.AppendKeepsLayoutValid | Source/WaterPhysics/Private/WorldAlignedWaterSurfaceProvider.cpp:131-144 | appending a section for a location no section holds, when all are used, keeps the list well formed |
| SurfaceProvider.UnusedLayoutValid | Source/WaterPhysics/Private/WorldAlignedWaterSurfaceProvider.cpp:63 | a list with every section unused is well formed |
| SurfaceProvider.AnswersKept | Source/WaterPhysics/Private/WorldAlignedWaterSurfaceProvider.cpp:69-79 | answers already given stay correct while the cache only gains sections and samples |
| SurfaceProvider.WorldAlignedWaterSurfaceProvider.constructor | Source/WaterPhysics/Private/WorldAlignedWaterSurfaceProvider.h:130 | a new provider has no sections and a well-formed list |
| SurfaceProvider.WorldAlignedWaterSurfaceProvider.CalculateVerticesWaterInfo | Source/WaterPhysics/Private/WorldAlignedWaterSurfaceProvider.cpp:69-79 | one result per vertex, each the interpolation, with the corrected in-cell weights, of the cell holding that vertex in the final cache |
| SurfaceProvider.WorldAlignedWaterSurfaceProvider.CalculateWaterInfoAtLocation | Source/WaterPhysics/Private/WorldAlignedWaterSurfaceProvider.cpp:82-185 | the result is the interpolation, with the corrected in-cell weights, of the cell holding the location in a section that holds it; the cache only grows, by at most one section, and earlier sections keep their place |
| SurfaceProvider.WorldAlignedWaterSurfaceProvider.SampleCell | Source/WaterPhysics/Private/WorldAlignedWaterSurfaceProvider.cpp:148-181 | the cell of the location, with the corrected in-cell weights, is sampled in the chosen section; only that section's buffer changes, and only by gaining samples |
| SurfaceProvider.WorldAlignedWaterSurfaceProvider.FindSection | Source/WaterPhysics/Private/WorldAlignedWaterSurfaceProvider.cpp:87-146 | the section returned holds the location; an existing holder is reused with nothing changed, else the first unused section is set up fresh for it, else a fresh one is appended |
| SurfaceProvider.WorldAlignedWaterSurfaceProvider.ScanSections | Source/WaterPhysics/Private/WorldAlignedWaterSurfaceProvider.cpp:95-111 | the scan stops at a section holding the location or at the first unused one; finding neither means every section is used and none holds it |
| SurfaceProvider.WorldAlignedWaterSurfaceProvider.ReuseSection | Source/WaterPhysics/Private/WorldAlignedWaterSurfaceProvider.cpp:123-130 | the first unused section becomes a fresh section on the location's grid origin and nothing else changes |
| SurfaceProvider.WorldAlignedWaterSurfaceProvider.AppendSection | Source/WaterPhysics/Private/WorldAlignedWaterSurfaceProvider.cpp:131-144 | a new fresh section on the location's grid origin is added at the tail and the others are kept |
| SurfaceProvider.WorldAlignedWaterSurfaceProvider.EndStepScene | Source/WaterPhysics/Private/WorldAlignedWaterSurfaceProvider.cpp:49-67 | the sections unused this step are removed and the used ones are kept, in order, flagged unused |
| ComponentFilters.FilterMembership | Source/WaterPhysics/Private/WaterPhysicsTypes.cpp:88-100 | the kept components are exactly those of the list that pass the test, in list order |
| ComponentFilters.NamedComponentsMembership | Source/WaterPhysics/Private/WaterPhysicsTypes.cpp:104-117 | a component is reached by name iff some listed name is an object property of the actor holding it |
| ComponentFilters.SelectedMembership | Source/WaterPhysics/Private/WaterPhysicsTypes.cpp:76-121 | a component is selected iff the actor is valid, the component passes the include/exclude class test, and it is a valid component of the actor (select all) or held by a listed property |
| ComponentFilters.FindAnyOf | Source/WaterPhysics/Private/WaterPhysicsTypes.cpp:95 | the search finds a match iff the component is of one of the listed classes |
| ComponentFilters.ShouldKeep | Source/WaterPhysics/Private/WaterPhysicsTypes.cpp:95-98 | a component is kept iff the include list is empty or matches, and the exclude list does not match |
| ComponentFilters.GetComponents | Source/WaterPhysics/Private/WaterPhysicsTypes.cpp:76-121 | the result is the selection described by SelectedMembership, and every returned component passes the class test |
| ComponentFilters.SelectFromComponents | Source/WaterPhysics/Private/WaterPhysicsTypes.cpp:88-101 | the select-all loop keeps, in order, the valid components that pass the class test |
| ComponentFilters.SelectFromNames | Source/WaterPhysics/Private/WaterPhysicsTypes.cpp:102-118 | the named loop keeps, in name order, the property-held components that pass the class test |
| ComponentFilters.ProcessFilterNot | Source/WaterPhysics/Private/WaterPhysicsTypes.cpp:123-141 | flipping Not negates a filter's outcome, and without Not the outcome is the tag, actor-class or component-class test |
| ComponentFilters.FilterGroupsConcat | Source/WaterPhysics/Private/WaterPhysicsTypes.cpp:148-160 | the AND groups are non-empty and, flattened, give back the filter list in order |
| ComponentFilters.FilterGroupsOperations | Source/WaterPhysics/Private/WaterPhysicsTypes.cpp:152-159 | every group after the first starts at an Or filter and every later member of a group is an And filter (the first filter always joins the first group) |
| ComponentFilters.FilterListAllAnd | Source/WaterPhysics/Private/WaterPhysicsTypes.cpp:143-180 | a list whose later filters are all And holds iff every filter holds |
| ComponentFilters.FilterListAllOr | Source/WaterPhysics/Private/WaterPhysicsTypes.cpp:143-180 | a list whose later filters are all Or holds iff some filter holds |
| ComponentFilters.AllOrGroups | Source/WaterPhysics/Private/WaterPhysicsTypes.cpp:152-159 | with only Or after the head, every filter forms its own group |
| ComponentFilters.GroupFilters | Source/WaterPhysics/Private/WaterPhysicsTypes.cpp:149-160 | the one-pass grouping loop builds exactly the AND groups: they flatten to the list, start at Or, continue with And |
| ComponentFilters.EvaluateAndExpressions | Source/WaterPhysics/Private/WaterPhysicsTypes.cpp:162-170 | a group evaluates to true iff every filter in it holds |
| ComponentFilters.ProcessFilterList | Source/WaterPhysics/Private/WaterPhysicsTypes.cpp:143-180 | false for an empty list, otherwise true iff some AND group holds entirely |
| SettingsComponent.NewSettingsComponent | Source/WaterPhysics/Private/WaterPhysicsSettingsComponent.cpp:7-11 | a new settings component has no settings entries, a blacklist that selects by name and a whitelist that selects all |
| SettingsComponent.NewSettingsComponentBlacklistsNothing | Source/WaterPhysics/Private/WaterPhysicsSettingsComponent.cpp:7-11 | the default blacklist selects no component |
| SettingsComponent.FirstSettingsComponent | Source/WaterPhysics/Private/WaterPhysicsSettingsComponent.cpp:17-22 | the result is the first component of the actor that is a settings component, and None iff there is none |
| SettingsComponent.FindSettingsComponent | Source/WaterPhysics/Private/WaterPhysicsSettingsComponent.cpp:17-22 | the search loop returns the first settings component of the actor |
| SettingsComponent.LayeredMeaning | Source/WaterPhysics/Private/WaterPhysicsSettingsComponent.cpp:79-93 | a component gets settings iff some allowed entry selects it, and its settings are the merge, in entry order, of the settings of every entry that selects it |
| SettingsComponent.GatheredFieldFromLastSetter | Source/WaterPhysics/Private/WaterPhysicsSettingsComponent.cpp:79-93 | each field of a component's gathered settings comes from the last entry selecting it that sets the field |
| SettingsComponent.LayeredKeysAllowed | Source/WaterPhysics/Private/WaterPhysicsSettingsComponent.cpp:84-86 | no blacklisted component, and no component outside a non-empty whitelist, gets settings |
| SettingsComponent.ApplyEntry | Source/WaterPhysics/Private/WaterPhysicsSettingsComponent.cpp:81-92 | one settings entry merges its settings into, or adds them for, each selected component that is allowed |
| SettingsComponent.GatherActorWaterPhysicsSettings | Source/WaterPhysics/Private/WaterPhysicsSettingsComponent.cpp:13-97 | without a settings component every primitive or collision component not of a hidden class gets fresh settings; with one, the black- and whitelists are selected (select-all whitelist read as empty) and the entries are layered; only allowed components get settings |
| SettingsComponent.GatherDefaults | Source/WaterPhysics/Private/WaterPhysicsSettingsComponent.cpp:53-71 | with no settings component, exactly the components passing the class test get fresh settings |
| SceneComponent.RegisteredNames | Source/WaterPhysics/Private/WaterPhysicsSceneComponent.cpp:104-114 | with all bodies, the names registered are exactly the component's body names plus the unnamed body; otherwise just the one body name given |
| SceneComponent.WithBodiesAddedRegisters | Source/WaterPhysics/Private/WaterPhysicsSceneComponent.cpp:116-117 | after the loop every listed body name of the component is found in the scene with the settings given |
| SceneComponent.WithBodiesAddedLeavesOthers | Source/WaterPhysics/Private/WaterPhysicsSceneComponent.cpp:116-117 | the loop leaves the lookup of every other component, and of every unlisted body name, as it was |
| SceneComponent.WithBodiesAddedKeepsNamesUnique | Source/WaterPhysics/Private/WaterPhysicsSceneComponent.cpp:116-117 | adding bodies keeps the body names of each component unique |
| SceneComponent.ComponentsAddedRegisters | Source/WaterPhysics/Private/WaterPhysicsSceneComponent.cpp:45-51 | every accepted, registrable component of the list ends up with all its bodies (and the unnamed body) registered with its settings |
| SceneComponent.ComponentsAddedLeavesOthers | Source/WaterPhysics/Private/WaterPhysicsSceneComponent.cpp:45-51 | a component not in the list, not accepted or not registrable keeps exactly its previous bodies, or stays absent |
| SceneComponent.BodyAreaAtMostTotal | Source/WaterPhysics/Private/WaterPhysicsSceneComponent.cpp:193-204 | with non-negative body areas, each body's submerged area lies between 0 and the component's total |
| SceneComponent.TotalNonNegative | Source/WaterPhysics/Private/WaterPhysicsSceneComponent.cpp:193-204 | the summed submerged area of non-negative bodies is non-negative |
| SceneComponent.TotalsConcat | Source/WaterPhysics/Private/WaterPhysicsSceneComponent.cpp:172-204 | the summed forces and areas of two body lists are the sums of their separate totals |
| SceneComponent.WithSettingsFinds | Source/WaterPhysics/Private/WaterPhysicsSceneComponent.cpp:138-148 | after setting all bodies of a component, every body of it is found with the new settings and otherwise unchanged; other components are untouched |
| SceneComponent.WithBodySettingsFinds | Source/WaterPhysics/Private/WaterPhysicsSceneComponent.cpp:149-158 | after setting one body, just that body changes, and only its settings; a missing body leaves the scene unchanged |
| SceneComponent.WaterPhysicsSceneComponent.constructor | Source/WaterPhysics/Private/WaterPhysicsSceneComponent.cpp:12-18 | a new scene component owns a fresh, empty scene |
| SceneComponent.WaterPhysicsSceneComponent.EndPlay | Source/WaterPhysics/Private/WaterPhysicsSceneComponent.cpp:31-36 | ending play clears every body from the scene |
| SceneComponent.WaterPhysicsSceneComponent.AddComponentToWaterPhysics | Source/WaterPhysics/Private/WaterPhysicsSceneComponent.cpp:87-119 | an invalid or unregistrable component changes nothing; otherwise each registered name is added as a body with the settings |
| SceneComponent.WaterPhysicsSceneComponent.RemoveComponentFromWaterPhysics | Source/WaterPhysics/Private/WaterPhysicsSceneComponent.cpp:121-127 | with all bodies, the component is dropped and the result says whether it was there; otherwise only the named body goes and the result says whether it was found |
| SceneComponent.WaterPhysicsSceneComponent.AddActorToWaterPhysics | Source/WaterPhysics/Private/WaterPhysicsSceneComponent.cpp:38-53 | an invalid actor changes nothing; otherwise every registrable component of the actor is added with all its bodies and the same settings |
| SceneComponent.WaterPhysicsSceneComponent.RemoveActorFromWaterPhysics | Source/WaterPhysics/Private/WaterPhysicsSceneComponent.cpp:55-69 | an invalid actor gives false and changes nothing; otherwise all the actor's components are dropped and the result is true iff any was registered |
| SceneComponent.WaterPhysicsSceneComponent.AddActorsToWaterPhysics | Source/WaterPhysics/Private/WaterPhysicsSceneComponent.cpp:71-75 | the scene becomes the in-order addition of each actor's components |
| SceneComponent.WaterPhysicsSceneComponent.RemoveActorsFromWaterPhysics | Source/WaterPhysics/Private/WaterPhysicsSceneComponent.cpp:77-85 | the components of every valid listed actor are dropped, and the result is true iff one of them was registered |
| SceneComponent.WaterPhysicsSceneComponent.SetComponentWaterPhysicsSettings | Source/WaterPhysics/Private/WaterPhysicsSceneComponent.cpp:129-160 | an invalid component, or a missing one with all bodies, changes nothing; otherwise the settings of all its bodies, or of the named body, are replaced |
| SceneComponent.WaterPhysicsSceneComponent.SetAllBodySettings | Source/WaterPhysics/Private/WaterPhysicsSceneComponent.cpp:146-147 | the loop gives every body of the component the new settings |
| SceneComponent.WaterPhysicsSceneComponent.ContainsComponent | Source/WaterPhysics/Private/WaterPhysicsSceneComponent.cpp:162-165 | true iff the component has bodies in the scene |
| SceneComponent.WaterPhysicsSceneComponent.ContainsComponentBody | Source/WaterPhysics/Private/WaterPhysicsSceneComponent.cpp:167-170 | true iff the component has a body of that name in the scene |
| SceneComponent.WaterPhysicsSceneComponent.GetComponentActingWaterPhysicsForces | Source/WaterPhysics/Private/WaterPhysicsSceneComponent.cpp:172-183 | zero forces for an unknown component, else the sum of the forces on its bodies |
| SceneComponent.WaterPhysicsSceneComponent.GetComponentBodyActingWaterPhysicsForces | Source/WaterPhysics/Private/WaterPhysicsSceneComponent.cpp:185-191 | zero forces for an unknown body, else the forces of a body with that name |
| SceneComponent.WaterPhysicsSceneComponent.GetComponentSubmergedArea | Source/WaterPhysics/Private/WaterPhysicsSceneComponent.cpp:193-204 | 0 for an unknown component, else the summed submerged area of its bodies |
| SceneComponent.WaterPhysicsSceneComponent.GetComponentBodySubmergedArea | Source/WaterPhysics/Private/WaterPhysicsSceneComponent.cpp:206-212 | 0 for an unknown body, else the submerged area of a body with that name |
| PhysicsScene.WithBuffer | Source/WaterPhysics/Public/WaterPhysicsScene.h:139 | writing one of the two triangle-data slots replaces just that slot and keeps the other slot and every other part of the body |
| PhysicsScene.ClearedBody | Source/WaterPhysics/Public/WaterPhysicsScene.h:143 | clearing a body's triangle data empties both slots and keeps its name, settings, forces and area |
| PhysicsScene.FindBodyIndex | Source/WaterPhysics/Public/WaterPhysicsScene.h:222-229 | the index found is that of the first body with the name, and None means no body has it |
| PhysicsScene.FindComponentBody | Source/WaterPhysics/Public/WaterPhysicsScene.h:222-229 | a body is found iff the component is registered and one of its bodies has the name; the body found has that name and belongs to the component |
| PhysicsScene.FindBodyIndexOfFirst | Source/WaterPhysics/Public/WaterPhysicsScene.h:224 | the search by name returns the position of the first body carrying it |
| PhysicsScene.WithBodyAdded | Source/WaterPhysics/Public/WaterPhysicsScene.h:173-193 | adding a body registers the component; an existing body keeps the list length, a new name grows it by one |
| PhysicsScene.AddedBodyFound | Source/WaterPhysics/Public/WaterPhysicsScene.h:173-193 | after adding, the body is found with the new settings and empty triangle data; a new name gives a fresh body, an existing one keeps its forces and area |
| PhysicsScene.AddLeavesOthers | Source/WaterPhysics/Public/WaterPhysicsScene.h:173-193 | adding a body leaves the lookup of every other component and body name unchanged |
| PhysicsScene.AddKeepsNamesUnique | Source/WaterPhysics/Public/WaterPhysicsScene.h:173-193 | adding a body keeps each component's body names distinct |
| PhysicsScene.RemoveNamed | Source/WaterPhysics/Public/WaterPhysicsScene.h:203 | the remaining bodies are exactly those without the name, and the list shrinks iff a body had it |
| PhysicsScene.RemoveNamedKeepsOthers | Source/WaterPhysics/Public/WaterPhysicsScene.h:203 | removing one name leaves every other name found, with the same body |
| PhysicsScene.WithBodyRemoved | Source/WaterPhysics/Public/WaterPhysicsScene.h:200-205 | after removal the named body is not found, the registered components are the same and every other component keeps its bodies |
| PhysicsScene.RemoveBodyLeavesOthers | Source/WaterPhysics/Public/WaterPhysicsScene.h:200-205 | removing a body leaves the lookup of every other component and body name unchanged |
| PhysicsScene.RemoveKeepsNamesUnique | Source/WaterPhysics/Public/WaterPhysicsScene.h:200-205 | removing a body keeps each component's body names distinct |
| PhysicsScene.WithTriangleDataCleared | Source/WaterPhysics/Public/WaterPhysicsScene.h:240-244 | clearing triangle data keeps the registered components, their body counts and every other component's bodies |
| PhysicsScene.ClearTriangleDataOnlyBuffers | Source/WaterPhysics/Public/WaterPhysicsScene.h:240-244 | only the named body's triangle data is emptied; every lookup finds the same bodies as before |
| PhysicsScene.FrameIndex | Source/WaterPhysics/Public/WaterPhysicsScene.h:246 | with the buffer index 0 or 1, the frame index is a valid slot |
| PhysicsScene.FrameSlots | Source/WaterPhysics/Public/WaterPhysicsScene.h:246-248 | the current and previous frames use different slots, and one swap exchanges them |
| PhysicsScene.InitFrameBuffers | Source/WaterPhysics/Private/WaterPhysicsScene.cpp:862-917 | the current slot becomes one zero per source triangle; the previous slot is kept when its length matches, else becomes those zeros; the rest of the body is kept |
| PhysicsScene.AccumulateSweptWaterArea | Source/WaterPhysics/Private/WaterPhysicsScene.cpp:1407-1410 | each slot of the current frame gains the swept area of exactly the submerged triangles tagged with it |
| PhysicsScene.SweptAreaOfSlotBounds | Source/WaterPhysics/Private/WaterPhysicsScene.cpp:1407-1410 | with positive areas and non-negative speeds, swept area never decreases, and an untagged slot gets none |
| PhysicsScene.SlammingSlotsInBounds | Source/WaterPhysics/Private/WaterPhysicsScene.cpp:1407-1420 | every clipped piece's source index addresses a slot of both frames after InitFrame, so the slamming reads and writes stay in range |
| PhysicsScene.WaterPhysicsScene.constructor | Source/WaterPhysics/Public/WaterPhysicsScene.h:168-169 | a new scene has no bodies and buffer index 0 |
| PhysicsScene.WaterPhysicsScene.AddComponentBody | Source/WaterPhysics/Public/WaterPhysicsScene.h:173-193 | the body map becomes the one with the body added, and the index returned is where the body now sits |
| PhysicsScene.WaterPhysicsScene.RemoveComponent | Source/WaterPhysics/Public/WaterPhysicsScene.h:195-198 | the component is dropped, and the result is true iff it was registered |
| PhysicsScene.WaterPhysicsScene.RemoveComponentBody | Source/WaterPhysics/Public/WaterPhysicsScene.h:200-205 | bodies with the name are dropped, and the result is true iff such a body existed |
| PhysicsScene.WaterPhysicsScene.ClearTriangleData | Source/WaterPhysics/Public/WaterPhysicsScene.h:240-244 | only the named body's triangle data is cleared |
| PhysicsScene.WaterPhysicsScene.SwapBuffers | Source/WaterPhysics/Public/WaterPhysicsScene.h:248 | the buffer index flips and the new current frame is the old previous one; bodies are untouched |
| PhysicsScene.WaterPhysicsScene.ClearWaterPhysicsScene | Source/WaterPhysics/Public/WaterPhysicsScene.h:250 | all bodies are removed |
| PhysicsScene.WaterPhysicsScene.RemoveInvalidComponents | Source/WaterPhysics/Private/WaterPhysicsScene.cpp:815-824 | exactly the components that are still valid remain, with their bodies unchanged |
| PhysicsScene.WaterPhysicsScene.InitFrame | Source/WaterPhysics/Private/WaterPhysicsScene.cpp:856-927 | only the chosen body's frame buffers are reset, as InitFrameBuffers describes |
| PhysicsScene.WaterPhysicsScene.AccumulateSweptArea | Source/WaterPhysics/Private/WaterPhysicsScene.cpp:1407-1410 | the chosen body's current frame gains each tagged triangle's swept area; nothing else changes |
| PhysicsScene.ClampComponent | Source/WaterPhysics/Private/WaterPhysicsScene.cpp:1337-1348 | a clamped force component keeps its sign, never grows in size and never exceeds what cancels the momentum; a component already within that bound is kept |
| PhysicsScene.ClampComponentIdempotent | Source/WaterPhysics/Private/WaterPhysicsScene.cpp:1337-1348 | clamping twice is the same as clamping once |
| PhysicsScene.ClampForce | Source/WaterPhysics/Private/WaterPhysicsScene.cpp:1337-1348 | each component of the force (or torque) is clamped against the same component of the momentum on its own: it keeps its sign, never grows, never reverses the momentum, and is kept whole when it at most cancels it |
| PhysicsScene.ClampForceIdempotent | Source/WaterPhysics/Private/WaterPhysicsScene.cpp:1337-1348 | clamping a force twice against the same momentum is the same as clamping it once |
| PhysicsScene.RemoveAtSwap | Source/WaterPhysics/Private/WaterPhysicsScene.cpp:1501-1502 | removing at i moves the last element into i and keeps every other element in place |
| PhysicsScene.PruneEmptyTriangulations | Source/WaterPhysics/Private/WaterPhysicsScene.cpp:1495-1507 | the remaining entries are exactly the original ones with triangles, each with its own component body, and nothing changes when every entry has triangles |
| PhysicsScene.PruneNext | Source/WaterPhysics/Private/WaterPhysicsScene.cpp:1497-1505 | one iteration swap-removes an empty entry, or steps past a full one, and keeps the pruning invariant |
| PhysicsScene.FetchingMethodOwnBody | Source/WaterPhysics/Private/WaterPhysicsScene.cpp:1518 | read through the triangulation's own processing index, each pruned entry's fetching method is that of its own body |
| PhysicsScene.FetchingMethodAsWrittenMisaligned | Source/WaterPhysics/Private/WaterPhysicsScene.cpp:1518 | as written, after an empty first entry is pruned, the surviving body reads the fetching method of the pruned one |
| PhysicsScene.FetchPerVertex | Source/WaterPhysics/Private/WaterPhysicsScene.cpp:772-777 | one sample per vertex, each the getter at that vertex |
| PhysicsScene.FetchPerObject | Source/WaterPhysics/Private/WaterPhysicsScene.cpp:779-790 | one sample per vertex, each the getter at the component's location |
| PhysicsScene.FetchVerticesWaterInfo | Source/WaterPhysics/Private/WaterPhysicsScene.cpp:759-797 | one sample per vertex by the fetching method: the getter per vertex, the getter at the component, or the surface provider's answer (corrected in-cell weights) from a cached section holding the vertex |
| Tessellation.UnorderedEdge | Source/WaterPhysics/Private/WaterPhysicsScene.cpp:34-37 | the edge key's pair holds the two indices, larger first, whatever their order |
| Tessellation.EdgeKeyIdentifiesEdge | Source/WaterPhysics/Private/WaterPhysicsScene.cpp:34-40 | for 32-bit indices the packed 64-bit key is symmetric and two keys are equal iff they name the same unordered edge |
| Tessellation.FlattenUnflatten | Source/WaterPhysics/Private/WaterPhysicsScene.cpp:56-58 | reading an index list as triples and writing them back gives the same index list |
| Tessellation.FlattenWellFormed | Source/WaterPhysics/Private/WaterPhysicsScene.cpp:65-68 | a flat index list is well formed iff every triple refers to existing vertices |
| Tessellation.SplitHalvesNormal | Source/WaterPhysics/Private/WaterPhysicsScene.cpp:141-147 | both halves of a triangle split at the midpoint of an edge have the parent's normal direction at half its length |
| Tessellation.DepthFor | Source/WaterPhysics/Private/WaterPhysicsScene.cpp:152-164 | for a positive maximum area, some number of halvings brings any area under it, so the area recursion terminates |
| Tessellation.TriangleArray.constructor | Source/WaterPhysics/Private/WaterPhysicsScene.cpp:49-96 | the triangle array holds the given vertices and triangles with their position and midpoint rules |
| Tessellation.TriangleArray.MeasuresKept | Source/WaterPhysics/Private/WaterPhysicsScene.cpp:152-164 | appending vertices does not change a triangle's normal, area or size test |
| Tessellation.TriangleArray.HalfNormalQuarterAreaIn | Source/WaterPhysics/Private/WaterPhysicsScene.cpp:141-155 | a half whose normal is half the parent's has a quarter of its squared area |
| Tessellation.TriangleArray.SplitEdge | Source/WaterPhysics/Private/WaterPhysicsScene.cpp:70-82 | the midpoint of the two vertices is appended and its index returned |
| Tessellation.TriangleArray.VertexForEdge | Source/WaterPhysics/Private/WaterPhysicsScene.cpp:133-139 | an edge already split gives back its recorded vertex and changes nothing; otherwise one midpoint vertex is appended and recorded under the edge |
| Tessellation.TriangleArray.EmplaceTriangle | Source/WaterPhysics/Public/WaterPhysicsScene.h:37-45 | the triangle is appended and its index returned; its corners must be existing vertices |
| Tessellation.TriangleArray.AddTriangle | Source/WaterPhysics/Private/WaterPhysicsScene.cpp:84-96 | the new triangle is appended with the tag of the triangle it was split from, and its index returned |
| Tessellation.TriangleArray.LongestLine | Source/WaterPhysics/Private/WaterPhysicsScene.cpp:123-127 | the line chosen is at least as long as each of the triangle's three lines |
| Tessellation.TriangleArray.TessellateTriangle | Source/WaterPhysics/Private/WaterPhysicsScene.cpp:105-150 | the triangle is rewritten as (D, B, C) and (A, D, C) is appended, D the midpoint of its longest line; other triangles are untouched; both halves keep the tag and have half the parent's normal |
| Tessellation.TriangleArray.TessellatePass | Source/WaterPhysics/Private/WaterPhysicsScene.cpp:173-178 | one levels pass doubles the triangle count: triangle t's halves land at t and at n + t, each with half its normal and its tag |
| Tessellation.TriangleArray.PassNext | Source/WaterPhysics/Private/WaterPhysicsScene.cpp:176-177 | one iteration of the pass splits the next original triangle and keeps the pass invariant |
| Tessellation.TriangleArray.LevelsStep | Source/WaterPhysics/Private/WaterPhysicsScene.cpp:173-178 | after i + 1 passes the count is the original times 2^(i+1), and triangle t descends from original t mod n with its tag and its normal halved i + 1 times |
| Tessellation.TriangleArray.TessellateLevels | Source/WaterPhysics/Private/WaterPhysicsScene.cpp:171-180 | after max(levels, 0) passes the count is multiplied by 2^levels and triangle t descends from original t mod n with its tag, its normal scaled by 2^-levels |
| Tessellation.TriangleArray.TessellateRecursive | Source/WaterPhysics/Private/WaterPhysicsScene.cpp:152-164 | on return the triangle and every triangle appended meanwhile are within the maximum area and carry its tag; earlier triangles are untouched |
| Tessellation.TriangleArray.SplitWithinDepth | Source/WaterPhysics/Private/WaterPhysicsScene.cpp:156-158 | splitting a triangle that is too large leaves two halves, each one halving closer to the maximum area |
| Tessellation.TriangleArray.SplitAndRecurse | Source/WaterPhysics/Private/WaterPhysicsScene.cpp:156-163 | the recursion on both halves leaves them and everything appended within the maximum area with the parent's tag |
| Tessellation.TriangleArray.TessellateArea | Source/WaterPhysics/Private/WaterPhysicsScene.cpp:181-187 | afterwards no triangle exceeds the maximum area, every triangle carries the tag of an original one, and the originals' slots keep their tags |
| Tessellation.TriangleArray.TessellateTriangles | Source/WaterPhysics/Private/WaterPhysicsScene.cpp:99-192 | levels mode gives the levels result above, area mode the area result above; the split map always records exactly the appended vertices |
| Submersion.SplitAlphaBounds | Source/WaterPhysics/Private/WaterPhysicsScene.cpp:688-693 | on an edge crossing the surface the split fraction is well defined, lies in [0, 1], is complementary when the ends are swapped, and is 0 or 1 only at an end lying on the surface |
| Submersion.CrossingVertexSymmetric | Source/WaterPhysics/Private/WaterPhysicsScene.cpp:695-729 | the split vertex of a crossing edge is the same whichever end comes first, so sharing it through the edge map is sound |
| Submersion.SubmergedCopiesFacts | Source/WaterPhysics/Private/WaterPhysicsScene.cpp:643-650 | the submerged copies only grow, each lies strictly under the surface with positive depth, and a submerged vertex's copy sits at the count of copies made before it |
| Submersion.MeasureVertices | Source/WaterPhysics/Private/WaterPhysicsScene.cpp:636-650 | each depth is the plane distance of the vertex; the vertex list starts as the submerged copies in vertex order; a submerged vertex's index points at its copy |
| Submersion.SidesFacts | Source/WaterPhysics/Private/WaterPhysicsScene.cpp:667-671 | the under and over lists split the three corners; a partially submerged triangle's roles A, B, C keep the triangle's corner order with A alone on its side |
| Submersion.ClassifyCorners | Source/WaterPhysics/Private/WaterPhysicsScene.cpp:664-671 | the corners are sorted into the under and over lists in triangle order |
| Submersion.SplitVertex | Source/WaterPhysics/Private/WaterPhysicsScene.cpp:698-729 | a crossing edge's split vertex is reused when recorded, otherwise appended once and recorded; either way it is the interpolated crossing point, and earlier entries stay |
| Submersion.SplitBothEdges | Source/WaterPhysics/Private/WaterPhysicsScene.cpp:695-729 | both split vertices of A-B and A-C are the interpolated crossings, earlier vertices and edge entries stay, and each new vertex is paid for by one new edge entry |
| Submersion.CornerPieceValid | Source/WaterPhysics/Private/WaterPhysicsScene.cpp:731-738 | the piece at a lone submerged corner, written at the corner orders, faces the way its source triangle faces |
| Submersion.QuadFirstValid | Source/WaterPhysics/Private/WaterPhysicsScene.cpp:741-745 | the first half of the quad left by a lone dry corner faces the way its source triangle faces |
| Submersion.QuadSecondValid | Source/WaterPhysics/Private/WaterPhysicsScene.cpp:747-751 | the second half of that quad, with its first two roles exchanged, also faces the way its source triangle faces |
| Submersion.ClipPartial | Source/WaterPhysics/Private/WaterPhysicsScene.cpp:682-753 | a partially submerged triangle yields one piece (one corner under) or two (two under), each tagged with the triangle and facing as it does |
| Submersion.ClipTriangle | Source/WaterPhysics/Private/WaterPhysicsScene.cpp:662-754 | a triangle yields no piece when dry, itself when fully submerged, and the partial split otherwise; every piece is tagged with it and faces as it does |
| Submersion.ClipNext | Source/WaterPhysics/Private/WaterPhysicsScene.cpp:662-754 | one pass of the triangle loop keeps the clipping invariant and only appends pieces |
| Submersion.ClipTriangles | Source/WaterPhysics/Private/WaterPhysicsScene.cpp:662-754 | after the loop every source triangle's pieces are present, grouped by source triangle in triangle order |
| Submersion.PerformTriangleMeshWaterIntersection | Source/WaterPhysics/Private/WaterPhysicsScene.cpp:630-757 | the vertex list is the submerged copies followed by split vertices at depth 0; with distinct corners there is one split vertex per crossing edge; every piece is tagged with its source triangle, keeps its orientation and follows source order |
| PieceGeometry.CornerPieceNormal | Source/WaterPhysics/Private/WaterPhysicsScene.cpp:731-738 | the normal of the corner piece is the source normal scaled by the product of the two split fractions |
| PieceGeometry.QuadFirstNormal | Source/WaterPhysics/Private/WaterPhysicsScene.cpp:741-745 | the normal of the first quad half is the source normal scaled by one minus the split fraction |
| PieceGeometry.QuadSecondNormal | Source/WaterPhysics/Private/WaterPhysicsScene.cpp:747-751 | the normal of the second quad half is the source normal scaled by a non-negative product of the fractions |
| PieceGeometry.PieceOrientation | Source/WaterPhysics/Private/WaterPhysicsScene.cpp:731-751 | a piece whose role-ordered normal is a non-negative multiple of the source's, stored at the corner orders (first two exchanged when the roles were swapped), faces as the source triangle |
| Triangulation.MeshMidpointLaw | Source/WaterPhysics/Private/WaterPhysicsScene.cpp:79-82 | the mesh's edge split, the average of the two ends, does not depend on the order of the ends, which the tessellator relies on |
| Triangulation.TessellateMesh | Source/WaterPhysics/Private/WaterPhysicsScene.cpp:99-192 | tessellating a well-formed indexed mesh gives a well-formed mesh that keeps the old vertices as a prefix; levels mode multiplies the index count by 2^levels, area mode never lowers it |
| Triangulation.BoxCorners | Source/WaterPhysics/Private/WaterPhysicsScene.cpp:198-215 | the box has eight corners, each at plus or minus the half extent on every axis |
| Triangulation.TriangulateBox | Source/WaterPhysics/Private/WaterPhysicsScene.cpp:194-230 | the box mesh is well formed, its first eight vertices are the transformed corners, and it has 12 triangles times 2^subdivisions (BoxTriangulation) |
| Triangulation.Children | Source/WaterPhysics/Private/WaterPhysicsScene.cpp:257-268 | a triangle is replaced by twelve indices: its three corner triangles and the middle triangle of the edge midpoints |
| Triangulation.SubdividedShape | Source/WaterPhysics/Private/WaterPhysicsScene.cpp:253-271 | a subdivision pass writes four times the indices, and triangle t's block of twelve is exactly its four children |
| Triangulation.SubdividedLarger | Source/WaterPhysics/Private/WaterPhysicsScene.cpp:244-251 | recording more edges never changes the midpoint an already recorded edge gives, so earlier children stay as written |
| Triangulation.SubdividedBounded | Source/WaterPhysics/Private/WaterPhysicsScene.cpp:244-271 | when the old indices and the recorded midpoints are valid vertex indices, so is every index the pass writes |
| Triangulation.VertexForEdge | Source/WaterPhysics/Private/WaterPhysicsScene.cpp:244-251 | the vertex of an already recorded edge is reused; otherwise one new vertex made from the edge's two ends is appended and recorded; earlier entries keep their vertices |
| Triangulation.SubdivideTriangle | Source/WaterPhysics/Private/WaterPhysicsScene.cpp:255-268 | the three edges of the triangle get recorded midpoints and the twelve indices written are its four children |
| Triangulation.SubdivideLoop | Source/WaterPhysics/Private/WaterPhysicsScene.cpp:253-269 | after the loop every edge of the mesh, and no other, has one midpoint vertex, and the new index list is the children of every triangle in order |
| Triangulation.EdgesOfAppend | Source/WaterPhysics/Private/WaterPhysicsScene.cpp:253-269 | the distinct edges of two whole triangle lists put one after the other are the edges of the first followed by the new edges of the second, as the edge lookup meets them |
| Triangulation.Subdivide | Source/WaterPhysics/Private/WaterPhysicsScene.cpp:236-272 | one pass adds one vertex per distinct edge, keeps the old vertices, and quadruples the indices into a well-formed mesh |
| Triangulation.SubdivideTimes | Source/WaterPhysics/Private/WaterPhysicsScene.cpp:301-302 | subdividing n times (none for a negative n) keeps the mesh well formed, keeps the old vertices, and multiplies the indices by 4^n |
| Triangulation.IcoSphereEdgeCount | Source/WaterPhysics/Private/WaterPhysicsScene.cpp:290-297 | the icosahedron's index table has exactly 30 distinct edges, so its first subdivision pass adds 30 vertices to the 12 |
| Triangulation.MapVertices | Source/WaterPhysics/Private/WaterPhysicsScene.cpp:304-305 | every vertex is replaced by its image and the count is kept |
| Triangulation.SphereEdgeVertex | Source/WaterPhysics/Private/WaterPhysicsScene.cpp:250 | the sphere's new vertex, the normalised sum of the two ends, does not depend on their order |
| Triangulation.TriangulateSphere | Source/WaterPhysics/Private/WaterPhysicsScene.cpp:232-308 | the sphere mesh is well formed, has 20 triangles times 4^subdivisions, its first 12 vertices are the icosahedron's scaled by the radius and moved to the centre, and it has 12 vertices after no pass and 42 after one (SphereTriangulation) |
| Triangulation.StretchCapsuleVertex | Source/WaterPhysics/Private/WaterPhysicsScene.cpp:401-408 | a capsule vertex is scaled by the radius and, unless its height is nearly zero, moved up or down by the half height on its side |
| Triangulation.ClampToCapsule | Source/WaterPhysics/Private/WaterPhysicsScene.cpp:328-332 | the point is pushed to the radius from the nearest point of the capsule's axis segment |
| Triangulation.CapsuleEdgeVertex | Source/WaterPhysics/Private/WaterPhysicsScene.cpp:334 | the capsule's new vertex is the midpoint of the edge clamped onto the capsule |
| Triangulation.TriangulateSphyl | Source/WaterPhysics/Private/WaterPhysicsScene.cpp:310-418 | the capsule mesh is well formed, has 40 triangles times 4^subdivisions, and its first 22 vertices are the stretched table vertices under the capsule's transform (SphylTriangulation) |
| Triangulation.Shifted | Source/WaterPhysics/Private/WaterPhysicsScene.cpp:462-469 | every index of the appended mesh is raised by the offset and the count is kept |
| Triangulation.ConcatenationShape | Source/WaterPhysics/Private/WaterPhysicsScene.cpp:453-472 | the combined mesh has the sums of the meshes' vertex and index counts, and is well formed when each part is |
| Triangulation.ConcatenationPart | Source/WaterPhysics/Private/WaterPhysicsScene.cpp:455-470 | the j-th mesh sits in the combined mesh at the offsets of the meshes before it: its vertices unchanged, its indices raised by the vertex offset |
| Triangulation.ConcatenationGrows | Source/WaterPhysics/Private/WaterPhysicsScene.cpp:454-470 | combining a prefix of the meshes gives a prefix of the combined mesh |
| Triangulation.OffsetFrom | Source/WaterPhysics/Private/WaterPhysicsScene.cpp:464-468 | the indices from the start position on are raised by the offset and those before it are untouched |
| Triangulation.Concatenate | Source/WaterPhysics/Private/WaterPhysicsScene.cpp:453-472 | the loop builds exactly the concatenation of the meshes, each one's indices shifted by the vertices before it |
| Triangulation.AddSpheres | Source/WaterPhysics/Private/WaterPhysicsScene.cpp:428-429 | one mesh per sphere element is appended after the meshes already built, in element order, each the SphereTriangulation of its element with 60 times 4^subdivisions indices; the earlier meshes are kept |
| Triangulation.AddBoxes | Source/WaterPhysics/Private/WaterPhysicsScene.cpp:431-432 | one mesh per box element is appended after the meshes already built, in element order, each the BoxTriangulation of its element with 36 times 2^subdivisions indices; the earlier meshes are kept |
| Triangulation.AddSphyls | Source/WaterPhysics/Private/WaterPhysicsScene.cpp:434-435 | one mesh per capsule element is appended after the meshes already built, in element order, each the SphylTriangulation of its element with 120 times 4^subdivisions indices; the earlier meshes are kept |
| Triangulation.AddMeshes | Source/WaterPhysics/Private/WaterPhysicsScene.cpp:437-449 | one mesh per mesh element is appended in element order, each a levels-mode tessellation of its element that keeps the element's vertices as a prefix and multiplies its index count by 2^subdivisions; the earlier meshes are kept |
| Triangulation.SetupPartsFrom | Source/WaterPhysics/Private/WaterPhysicsScene.cpp:426-449 | the four element loops run one after the other give the setup's parts in order: spheres, then boxes, then capsules, then mesh elements, each slot the triangulation of its element |
| Triangulation.TriangulateCollisionSetup | Source/WaterPhysics/Private/WaterPhysicsScene.cpp:420-473 | the result is the concatenation of the setup's parts (SetupParts: one triangulation per element, spheres, boxes, capsules, then meshes); it is well formed, its vertex count is the parts' sum and its index count the sum the four kinds of element contribute |
| CollisionComponent.CopySphereElems | Source/WaterPhysics/Private/WaterPhysicsCollisionComponent.cpp:230-231 | each sphere of the body setup is copied, in order, with its centre and radius |
| CollisionComponent.CopyBoxElems | Source/WaterPhysics/Private/WaterPhysicsCollisionComponent.cpp:233-234 | each box is copied, in order, with its centre, rotation and its X, Y and Z sizes as the extent |
| CollisionComponent.CopySphylElems | Source/WaterPhysics/Private/WaterPhysicsCollisionComponent.cpp:236-237 | each capsule is copied, in order, with its centre, rotation, radius and length |
| CollisionComponent.ExtractConvexElems | Source/WaterPhysics/Private/WaterPhysicsCollisionComponent.cpp:239-250 | each convex element becomes, in order, the triangle mesh extracted from it with its own mirroring flag |
| CollisionComponent.ReversedIndexList | Source/WaterPhysics/Private/WaterPhysicsCollisionComponent.cpp:206-213 | every triangle of the index list is written with its first and last index swapped, flipping its winding |
| CollisionComponent.CopyPositions | Source/WaterPhysics/Private/WaterPhysicsCollisionComponent.cpp:215-220 | the vertex list is the LOD's position buffer, vertex for vertex |
| CollisionComponent.MeshElemReversesTriangles | Source/WaterPhysics/Private/WaterPhysicsCollisionComponent.cpp:204-220 | the mesh element has the LOD's vertices and one triangle per LOD triangle with its corners in reverse order, and is well formed when the LOD's triangles are |
| CollisionComponent.Ancestors | Source/WaterPhysics/Private/WaterPhysicsCollisionComponent.cpp:23-37 | the chain of attach parents walked upwards from the component, each one a component of the tree |
| CollisionComponent.NearestParentBodyIsFirst | Source/WaterPhysics/Private/WaterPhysicsCollisionComponent.cpp:23-40 | a body instance is found iff some parent on the chain has a body for the socket its child is attached by, and the one found belongs to the first such parent |
| CollisionComponent.FindParentBodyInstance | Source/WaterPhysics/Private/WaterPhysicsCollisionComponent.cpp:23-40 | the loop returns the nearest parent body instance, or none when the chain ends without one |
| CollisionComponent.WaterPhysicsCollisionComponent.constructor | Source/WaterPhysics/Private/WaterPhysicsCollisionComponent.cpp:105-121 | a new component is a mesh collision without a mesh at LOD 0, a 32-unit box and sphere, and a capsule of radius 22 and half height 44 |
| CollisionComponent.WaterPhysicsCollisionComponent.PostEditChangeProperty | Source/WaterPhysics/Private/WaterPhysicsCollisionComponent.cpp:124-164 | editing the half height raises it to at least the radius and zero; editing the radius clamps it to [0, half height]; editing the mesh or LOD clamps the LOD to the mesh's LODs, or resets it to 0; nothing else changes, so a capsule stays ordered |
| CollisionComponent.WaterPhysicsCollisionComponent.ClampLOD | Source/WaterPhysics/Private/WaterPhysicsCollisionComponent.cpp:137-161 | the LOD is clamped to the valid LOD indices of a valid mesh in mesh mode, and is 0 otherwise |
| CollisionComponent.ClampedLODIsValidIndex | Source/WaterPhysics/Private/WaterPhysicsCollisionComponent.cpp:155 | the clamped LOD of a mesh with at least one LOD indexes its render data |
| CollisionComponent.WaterPhysicsCollisionComponent.GetAllBodyNames | Source/WaterPhysics/Private/WaterPhysicsCollisionComponent.cpp:277-280 | the only body name is the attach socket name |
| CollisionComponent.WaterPhysicsCollisionComponent.GenerateWaterPhysicsCollisionSetup | Source/WaterPhysics/Private/WaterPhysicsCollisionComponent.cpp:179-268 | mesh mode gives one mesh element with the LOD's vertices and flipped triangles, or nothing when the mesh, its CPU access, the LOD or its buffers are missing; mesh-collision mode copies every element of the body setup, or nothing without one; box, sphere and capsule modes give exactly one element of the component's own size at the origin |
| PhysicsActor.SimulatingComponentsAreRegistrable | Source/WaterPhysics/Private/WaterPhysicsSimulations/WaterPhysicsActor.cpp:214-219 | a valid component that implements the collision interface, or is a movable primitive, is one the scene component accepts |
| PhysicsActor.AddedActorComponent | Source/WaterPhysics/Private/WaterPhysicsSimulations/WaterPhysicsActor.cpp:87-102 | after the component loop a valid component is registered with its gathered settings, or the defaults, exactly when it should simulate and is not blacklisted or left out of a non-empty whitelist; otherwise its entry is as before |
| PhysicsActor.SettingsChangedEffect | Source/WaterPhysics/Private/WaterPhysicsSimulations/WaterPhysicsActor.cpp:147-176 | a settings change never registers a component; it unregisters the actor's registered components that are now excluded, gives its other registered valid components the new settings on every body, and leaves the rest alone |
| PhysicsActor.TickCountsDown | Source/WaterPhysics/Private/WaterPhysicsSimulations/WaterPhysicsActor.cpp:43-57 | after a Tick the pending removals are exactly the live actors with time left, each counted down by the step; a removal queued with delay 0 falls due on the next Tick with a non-negative step |
| PhysicsActor.AddRegistersSelectedComponents | Source/WaterPhysics/Private/WaterPhysicsSimulations/WaterPhysicsActor.cpp:60-108 | adding an admitted actor that is not pending removal registers each of its valid components exactly when it should simulate and is not excluded, leaving its other components' entries as they were |
| PhysicsActor.DelayedRemoveThenAddCancels | Source/WaterPhysics/Private/WaterPhysicsSimulations/WaterPhysicsActor.cpp:71-75 | a removal queued with a delay of zero or more followed by an add cancels out: the whole state is as before, with the components still registered and no notice raised |
| PhysicsActor.AddThenRemoveNowUnregisters | Source/WaterPhysics/Private/WaterPhysicsSimulations/WaterPhysicsActor.cpp:118-123 | an immediate removal after an add leaves none of the actor's components registered |
| PhysicsActor.WaterPhysicsActor.constructor | Source/WaterPhysics/Private/WaterPhysicsSimulations/WaterPhysicsActor.cpp:11-18 | a new actor owns a new scene component with an empty registry, no pending removals, filters, subscriptions or notices |
| PhysicsActor.WaterPhysicsActor.FilterActorFromWaterPhysics | Source/WaterPhysics/Private/WaterPhysicsSimulations/WaterPhysicsActor.cpp:198-205 | an actor is filtered out iff the Blueprint filter rejects it or the filter list is non-empty and does not hold for it |
| PhysicsActor.WaterPhysicsActor.AddActorToWater | Source/WaterPhysics/Private/WaterPhysicsSimulations/WaterPhysicsActor.cpp:60-108 | an invalid or filtered actor changes nothing; an actor pending removal only leaves the pending set; otherwise the selected components are registered, the settings component is subscribed to and the added notice is raised |
| PhysicsActor.WaterPhysicsActor.AddNewActor | Source/WaterPhysics/Private/WaterPhysicsSimulations/WaterPhysicsActor.cpp:82-107 | the gathered settings drive the registration, the subscription and the added notice for a new actor |
| PhysicsActor.WaterPhysicsActor.AddGathered | Source/WaterPhysics/Private/WaterPhysicsSimulations/WaterPhysicsActor.cpp:84-107 | the components are registered by the gathered lists and settings, the settings component if any is subscribed to, and one added notice is raised |
| PhysicsActor.WaterPhysicsActor.RegisterComponents | Source/WaterPhysics/Private/WaterPhysicsSimulations/WaterPhysicsActor.cpp:87-102 | the loop hands exactly the accepted components, with their settings, to the scene component |
| PhysicsActor.WaterPhysicsActor.RemoveActorFromWater | Source/WaterPhysics/Private/WaterPhysicsSimulations/WaterPhysicsActor.cpp:110-145 | an invalid actor changes nothing; a negative delay removes all the actor's components, drops its settings subscription and raises the removed notice iff something was registered; otherwise the actor is queued with that delay |
| PhysicsActor.WaterPhysicsActor.RemoveActorNow | Source/WaterPhysics/Private/WaterPhysicsSimulations/WaterPhysicsActor.cpp:118-140 | every component of the actor leaves the registry, its settings subscription is dropped, and the removed notice is raised iff one of them was registered |
| PhysicsActor.WaterPhysicsActor.Tick | Source/WaterPhysics/Private/WaterPhysicsSimulations/WaterPhysicsActor.cpp:43-57 | the pending set is counted down, with gone actors and due ones dropped; the components and subscriptions of every due actor are removed; the new notices are removals, none repeated, each of an actor that fell due while registered, and (one owner per component) every such actor gets one, so their count is the number of such actors |
| PhysicsActor.WaterPhysicsActor.TickEntry | Source/WaterPhysics/Private/WaterPhysicsSimulations/WaterPhysicsActor.cpp:45-56 | one pending entry is dropped when its actor is gone or its time runs out, in which case the actor is removed at once; otherwise its time is counted down |
| PhysicsActor.NoticesStep | Source/WaterPhysics/Private/WaterPhysicsSimulations/WaterPhysicsActor.cpp:45-56 | handling one more pending entry keeps the notice bookkeeping: removal notices only for handled actors that fell due while registered, no repeats, and none of them missed |
| PhysicsActor.AllNotices | Source/WaterPhysics/Private/WaterPhysicsSimulations/WaterPhysicsActor.cpp:43-57 | once every pending entry is handled, the notices are exactly one per actor that fell due while registered, and their number is the number of such actors |
| PhysicsActor.RegisteredAfterDue | Source/WaterPhysics/Private/WaterPhysicsSimulations/WaterPhysicsActor.cpp:50-55 | removing due actors' components can only end another actor's registration, and with one owner per component it does not |
| PhysicsActor.WaterPhysicsActor.NotifyWaterPhysicsSettingsChanged | Source/WaterPhysics/Private/WaterPhysicsSimulations/WaterPhysicsActor.cpp:147-176 | the owner's settings are gathered again and every component of the owner is updated as the settings change prescribes |
| PhysicsActor.WaterPhysicsActor.ApplySettingsChange | Source/WaterPhysics/Private/WaterPhysicsSimulations/WaterPhysicsActor.cpp:157-174 | one registered component is removed if now excluded, or gets its new settings if valid; an unregistered one is skipped |
| WaterBodies.InsertByPriorityPermutes | Source/WaterPhysics/Private/WaterPhysicsSimulations/WaterPhysics_WaterBodyBase.cpp:148-159 | inserting a body into a list adds exactly that body and loses none |
| WaterBodies.InsertByPrioritySorted | Source/WaterPhysics/Private/WaterPhysicsSimulations/WaterPhysics_WaterBodyBase.cpp:148-159 | inserting a body into a priority-sorted list keeps it sorted |
| WaterBodies.InsertByPriorityCorrect | Source/WaterPhysics/Private/WaterPhysicsSimulations/WaterPhysics_WaterBodyBase.cpp:148-159 | inserting into a priority-sorted list keeps it sorted and adds exactly the body |
| WaterBodies.PrioritySortedCorrect | Source/WaterPhysics/Private/WaterPhysicsSimulations/WaterPhysics_WaterBodyBase.cpp:148-159 | the priority sort returns a permutation of the list with non-decreasing priorities |
| WaterBodies.PermutationKeepsDistinct | Source/WaterPhysics/Private/WaterPhysicsSimulations/WaterPhysics_WaterBodyBase.cpp:102-103 | re-sorting a list without repeats leaves it without repeats |
| WaterBodies.WithoutCorrect | Source/WaterPhysics/Private/WaterPhysicsSimulations/WaterPhysics_WaterBodyBase.cpp:67 | removing a body keeps exactly the other bodies, and keeps the list sorted and free of repeats |
| WaterBodies.WithBodyEnteredCorrect | Source/WaterPhysics/Private/WaterPhysicsSimulations/WaterPhysics_WaterBodyBase.cpp:81-85 | after a begin overlap the actor's list holds exactly its old bodies and the new one, once each and sorted; it has a single body iff the new body is the only one the actor is in |
| WaterBodies.EnteredIncludes | Source/WaterPhysics/Private/WaterPhysicsSimulations/WaterPhysics_WaterBodyBase.cpp:81-82 | a begin overlap keeps the lists non-empty, sorted and repeat-free, and only adds memberships: the new one and all the old ones |
| WaterBodies.EnterAllIncludes | Source/WaterPhysics/Private/WaterPhysicsSimulations/WaterPhysics_WaterBodyBase.cpp:41-45 | begin overlaps of one body for several actors, in order, keep the lists well formed, lose no membership, and leave each of those actors with the body in its list |
| WaterBodies.EnterAllLists | Source/WaterPhysics/Private/WaterPhysicsSimulations/WaterPhysics_WaterBodyBase.cpp:41-45 | the body lists after a body's replayed overlaps depend on the lists alone: they are those of the begin overlaps applied in order |
| WaterBodies.ReplayIncludes | Source/WaterPhysics/Private/WaterPhysicsSimulations/WaterPhysics_WaterBodyBase.cpp:33-47 | the replay over all water bodies keeps the lists well formed, loses no membership, and leaves every valid body in the list of each actor it overlaps |
| WaterBodies.ReplayStep | Source/WaterPhysics/Private/WaterPhysicsSimulations/WaterPhysics_WaterBodyBase.cpp:33-47 | the replay of one more body applies that body's begin overlaps if it is valid and nothing if not |
| WaterBodies.EnterAllStep | Source/WaterPhysics/Private/WaterPhysicsSimulations/WaterPhysics_WaterBodyBase.cpp:41-45 | replaying one more overlapping actor is one more begin overlap on the state left by the earlier ones |
| WaterBodies.WithoutPairCorrect | Source/WaterPhysics/Private/WaterPhysicsSimulations/WaterPhysics_WaterBodyBase.cpp:87 | the pending removals of the (body, actor) pair are dropped and all others kept; none is dropped iff the pair had none pending |
| WaterBodies.ExpiredAreValid | Source/WaterPhysics/Private/WaterPhysicsSimulations/WaterPhysics_WaterBodyBase.cpp:56-63 | only entries whose actor is still alive can fall due |
| WaterBodies.ExpireAllStep | Source/WaterPhysics/Private/WaterPhysicsSimulations/WaterPhysics_WaterBodyBase.cpp:54-76 | each pending entry in turn is either dropped, counted down and kept, or applied on top of the earlier ones |
| WaterBodies.ExpireAllEffect | Source/WaterPhysics/Private/WaterPhysicsSimulations/WaterPhysics_WaterBodyBase.cpp:54-76 | applying expired entries keeps the lists sorted, non-empty and repeat-free; a body leaves an actor's list iff an expired entry names that pair; the registry loses exactly the components of the actors whose list emptied |
| WaterBodies.ExpireOneEffect | Source/WaterPhysics/Private/WaterPhysicsSimulations/WaterPhysics_WaterBodyBase.cpp:65-73 | one expired entry takes its body out of the actor's list, and an actor left with no body loses its entry and all its components |
| WaterBodies.ExpireAllAppendsNotices | Source/WaterPhysics/Private/WaterPhysicsSimulations/WaterPhysics_WaterBodyBase.cpp:54-76 | applying expired entries never removes body-list keys and only appends notices: each is a removal from water of an actor whose list emptied |
| WaterBodies.WaterBodyBase.constructor | Source/WaterPhysics/Private/WaterPhysicsSimulations/WaterPhysics_WaterBodyBase.cpp:8-24 | a new water-body actor has no body lists, no pending body removals and no bound bodies, over a fresh water-physics actor |
| WaterBodies.WaterBodyBase.OnActorBeginOverlapWaterBody | Source/WaterPhysics/Private/WaterPhysicsSimulations/WaterPhysics_WaterBodyBase.cpp:79-94 | the body joins the actor's list once, in priority order; the pair's pending removals are cancelled; the actor is added to the water iff none was pending and this is its only body; the whole new (lists, queue, actor state) triple is AfterEnter of the old one |
| WaterBodies.WaterBodyBase.BeginPlay | Source/WaterPhysics/Private/WaterPhysicsSimulations/WaterPhysics_WaterBodyBase.cpp:26-48 | every valid water body gets its overlap events bound; the new (lists, queue, actor state) triple is the old one with each valid body's begin overlaps applied in body order and overlap order; every actor a body overlapped has it in its list and no membership is lost |
| WaterBodies.WaterBodyBase.BindWaterBody | Source/WaterPhysics/Private/WaterPhysicsSimulations/WaterPhysics_WaterBodyBase.cpp:33-47 | a valid body is bound and its begin overlaps are applied in order to the whole state; an invalid body changes nothing |
| WaterBodies.WaterBodyBase.ReplayOverlaps | Source/WaterPhysics/Private/WaterPhysicsSimulations/WaterPhysics_WaterBodyBase.cpp:41-45 | the new (lists, queue, actor state) triple is the old one with a begin overlap for each overlapping actor in order; each of those actors has the body in its list and no membership is lost |
| WaterBodies.WaterBodyBase.OnActorEndOverlapWaterBody | Source/WaterPhysics/Private/WaterPhysicsSimulations/WaterPhysics_WaterBodyBase.cpp:96-104 | a removal of the pair with a half-second delay is queued, and the actor's list is only re-sorted |
| WaterBodies.WaterBodyBase.ExpireWaterBodies | Source/WaterPhysics/Private/WaterPhysicsSimulations/WaterPhysics_WaterBodyBase.cpp:54-76 | the queue keeps exactly the live entries with time left, counted down, and the expired entries are applied in queue order |
| WaterBodies.WaterBodyBase.ExpireEntry | Source/WaterPhysics/Private/WaterPhysicsSimulations/WaterPhysics_WaterBodyBase.cpp:63-75 | one expired entry is applied to the body lists and the water-physics state |
| WaterBodies.WaterBodyBase.Tick | Source/WaterPhysics/Private/WaterPhysicsSimulations/WaterPhysics_WaterBodyBase.cpp:50-77 | the base actor's Tick runs first: its notices keep the old ones as a prefix, add one removal per due registered actor and repeat none; the pending body removals then expire on top of its result, appending only removal notices for actors whose list emptied |
| WaterBodies.WaterBodyBase.CalculateWaterInfo | Source/WaterPhysics/Private/WaterPhysicsSimulations/WaterPhysics_WaterBodyBase.cpp:106-129 | an actor in some body gets the answer of a body of lowest priority value in its list, through the script override if the class has one; an actor in no body gets the default result |
| ActorBatches.RemoveAllQueues | Source/WaterPhysics/Private/WaterPhysicsSimulations/WaterPhysics_WaterVolume.cpp:145-146 | a batch of delayed removals changes only the pending removals: each valid actor of the batch is pending with exactly the delay and every other entry is as it was |
| ActorBatches.AddAllPending | Source/WaterPhysics/Private/WaterPhysicsSimulations/WaterPhysics_WaterVolume.cpp:142-143 | a batch of adds never queues a removal: an admitted actor of the batch that was pending has its removal cancelled and other actors' pending removals are untouched |
| ActorBatches.AddAllNotices | Source/WaterPhysics/Private/WaterPhysicsSimulations/WaterPhysics_WaterVolume.cpp:142-143 | a batch of adds only appends notices, and every admitted actor of the batch that was not pending removal is announced as added |
| ActorBatches.AfterAddPendingAndNotices | Source/WaterPhysics/Private/WaterPhysicsSimulations/WaterPhysicsActor.cpp:60-108 | one add cancels the actor's pending removal if it had one, and otherwise announces it, provided the filters admit it |
| WaterVolumes.VolumeWaterInfoOnTopFace | Source/WaterPhysics/Private/WaterPhysicsSimulations/WaterPhysics_WaterVolume.cpp:151-161 | the answered surface point is the query point carried, in the box's frame, onto the top face (same local x and y, local z the box's half height); the normal is the box's up vector and the water is still |
| WaterVolumes.WaterVolume.constructor | Source/WaterPhysics/Private/WaterPhysicsSimulations/WaterPhysics_WaterVolume.cpp:13-41 | a new volume tracks no overlapping actors and is in Overlap mode with overlap events still off (BeginPlay turns them on); its water-physics actor starts with an empty state and no filters |
| WaterVolumes.WaterVolume.UpdateOverlappedActors | Source/WaterPhysics/Private/WaterPhysicsSimulations/WaterPhysics_WaterVolume.cpp:134-149 | the actors that entered (new minus old) are added, those that left (old minus new) have their removal queued with a delay of one second, and the new overlap set becomes the current one |
| WaterVolumes.WaterVolume.AddActors | Source/WaterPhysics/Private/WaterPhysicsSimulations/WaterPhysics_WaterVolume.cpp:141-143 | adding a set of actors is adding each of them once, in some order, through the actor's add operation |
| WaterVolumes.WaterVolume.QueueRemovals | Source/WaterPhysics/Private/WaterPhysicsSimulations/WaterPhysics_WaterVolume.cpp:145-146 | removing a set of actors is queueing each one's removal once, in some order, with the given delay |
| WaterVolumes.WaterVolume.SetOverlapMethod | Source/WaterPhysics/Private/WaterPhysicsSimulations/WaterPhysics_WaterVolume.cpp:43-54 | overlap events are generated exactly in Overlap mode and the tick runs exactly in Trace mode; without a reset nothing else changes, with one every tracked actor is dropped and each valid one is pending removal with the one-second delay |
| WaterVolumes.WaterVolume.BeginPlay | Source/WaterPhysics/Private/WaterPhysicsSimulations/WaterPhysics_WaterVolume.cpp:56-69 | the configured method is applied; in Overlap mode the actors already overlapping the box become the tracked set and the state is exactly that of adding the entered actors then queueing the left ones with the one-second delay, in the returned orders; in Trace mode the state is unchanged |
| WaterVolumes.WaterVolume.Tick | Source/WaterPhysics/Private/WaterPhysicsSimulations/WaterPhysics_WaterVolume.cpp:71-97 | the water-physics actor's Tick: pending removals count down, due actors' components and subscriptions are removed, the new notices are unrepeated removals of due actors and (one owner per component) cover every due registered actor; an overlap query is issued every frame outside Overlap mode and never in it |
| WaterVolumes.WaterVolume.OnFinishAsyncOverlap | Source/WaterPhysics/Private/WaterPhysicsSimulations/WaterPhysics_WaterVolume.cpp:99-112 | the actors found by the finished query, skipping empty hits, become the tracked set, and the state is that of adding those that entered and queueing the removal of those that left, in the returned orders |
| WaterVolumes.WaterVolume.OnVolumeBeginOverlap | Source/WaterPhysics/Private/WaterPhysicsSimulations/WaterPhysics_WaterVolume.cpp:114-122 | in Overlap mode the entering actor joins the overlap set and the state is that of adding the entered actors and queueing the left ones, in the returned orders; in Trace mode nothing changes |
| WaterVolumes.WaterVolume.OnVolumeEndOverlap | Source/WaterPhysics/Private/WaterPhysicsSimulations/WaterPhysics_WaterVolume.cpp:124-132 | in Overlap mode the leaving actor leaves the overlap set and the state is that of adding the entered actors and queueing the left ones, in the returned orders; in Trace mode nothing changes |
| Oceanology.ClassPathsDiffer | Source/OceanologyIntegration/Private/WaterPhysicsSimulations/WaterPhysics_Oceanology.cpp:18-22 | the three water-surface class paths are pairwise distinct and so are the two wave-height function names, so each version range picks out its own class |
| Oceanology.WaterSurfaceClassByVersion | Source/OceanologyIntegration/Private/WaterPhysicsSimulations/WaterPhysics_Oceanology.cpp:24-40 | the pre-5.1 class is chosen exactly for versions below 5.1, the 5.1 class exactly for versions from 5.1 up to but excluding 5.1.7, and the newest class exactly from 5.1.7 on |
| Oceanology.WaveHeightFunctionByVersion | Source/OceanologyIntegration/Private/WaterPhysicsSimulations/WaterPhysics_Oceanology.cpp:42-58 | the newer wave-height function name is used exactly from version 5.1.7 on, and the old name exactly before it |
| Oceanology.ParallelFetchingByVersion | Source/OceanologyIntegration/Private/WaterPhysicsSimulations/WaterPhysics_Oceanology.cpp:73-78 | parallel wave-height fetching is supported exactly for versions above 5.1.6, which are exactly the versions that use the newest class and the newer function name |
| Oceanology.ParallelFetchingFromVersionName | Source/OceanologyIntegration/Private/OceanologyIntegrationModule.cpp:21-37 | reading a VersionName "major.minor.patch" at startup yields parallel fetching exactly when that version is above 5.1.6, whatever the versions held before |
| Oceanology.AsWrittenTrackerHoldsSelf | Source/OceanologyIntegration/Private/WaterPhysicsSimulations/WaterPhysics_Oceanology.cpp:295-316 | the handlers as written keep every tracker entry empty or holding its own actor; begin-overlap adds the actor exactly when its entry was empty, and end-overlap always removes it |
| Oceanology.AsWrittenLeavesWhileInsideOtherBounds | Source/OceanologyIntegration/Private/WaterPhysicsSimulations/WaterPhysics_Oceanology.cpp:307-316 | with the handlers as written, an actor that entered two bounds actors and left one is removed from the water although it is still inside the other |
| Oceanology.IntendedBeginTracks | Source/OceanologyIntegration/Public/WaterPhysicsSimulations/WaterPhysics_Oceanology.h:69-70 | recording the overlapped bounds actor keeps each entry equal to the set of bounds actors the actor overlaps, and the entry grows exactly when the overlap is new |
| Oceanology.IntendedEndTracks | Source/OceanologyIntegration/Public/WaterPhysicsSimulations/WaterPhysics_Oceanology.h:69-70 | dropping the overlapped bounds actor keeps each entry equal to the overlaps, and the entry becomes empty exactly when the actor overlaps no bounds actor any more |
| Oceanology.HandlersFollowOverlaps | Source/OceanologyIntegration/Private/WaterPhysicsSimulations/WaterPhysics_Oceanology.cpp:295-316 | the handlers the model uses keep the tracker equal to the overlaps; begin-overlap adds the actor exactly on a new overlap, and end-overlap removes it at once exactly when it overlaps no bounds actor |
| Oceanology.IntendedStaysWhileInsideOtherBounds | Source/OceanologyIntegration/Public/WaterPhysicsSimulations/WaterPhysics_Oceanology.h:69-70 | with the overlapped bounds actor recorded, the same three events leave the actor in the water while it is still inside the second bounds actor |
| Oceanology.OceanologyWaterInfo | Source/OceanologyIntegration/Private/WaterPhysicsSimulations/WaterPhysics_Oceanology.cpp:248-280 | no water information unless both the water actor and the wave-height function are valid; otherwise the point above or below the query point at the returned wave height, with an upward normal and still water |
| Oceanology.WaterPhysicsOceanology.constructor | Source/OceanologyIntegration/Private/WaterPhysicsSimulations/WaterPhysics_Oceanology.cpp:156-172 | a new Oceanology actor has no water actor, no wave-height function, no parallel fetching, no bound bounds actors, an empty tracker and an empty water-physics state |
| Oceanology.WaterPhysicsOceanology.BeginPlay | Source/OceanologyIntegration/Private/WaterPhysicsSimulations/WaterPhysics_Oceanology.cpp:174-209 | every initially simulated actor is added in order, the handlers are bound to every valid bounds actor, and the class and function looked up and the parallel-fetching flag follow the plugin version |
| Oceanology.WaterPhysicsOceanology.AddInitiallySimulated | Source/OceanologyIntegration/Private/WaterPhysicsSimulations/WaterPhysics_Oceanology.cpp:178-179 | the initially simulated actors are added to the water one after the other, in their order |
| Oceanology.WaterPhysicsOceanology.BindBoundsActors | Source/OceanologyIntegration/Private/WaterPhysicsSimulations/WaterPhysics_Oceanology.cpp:181-187 | the handlers are bound to exactly the valid bounds actors, in order |
| Oceanology.WaterPhysicsOceanology.OnBoundsActorTimer | Source/OceanologyIntegration/Private/WaterPhysicsSimulations/WaterPhysics_Oceanology.cpp:190-201 | when the bounds actor is gone nothing changes; otherwise the begin-overlap handler runs for each actor overlapping it, in order |
| Oceanology.WaterPhysicsOceanology.OnActorBeginOverlapBoundsActor | Source/OceanologyIntegration/Private/WaterPhysicsSimulations/WaterPhysics_Oceanology.cpp:295-305 | the overlapped bounds actor is recorded in the other actor's entry, and the other actor is added to the water when the entry grew |
| Oceanology.WaterPhysicsOceanology.OnActorEndOverlapBoundsActor | Source/OceanologyIntegration/Private/WaterPhysicsSimulations/WaterPhysics_Oceanology.cpp:307-316 | the overlapped bounds actor is dropped from the other actor's entry, and the other actor is removed at once when the entry is empty |
| Oceanology.WaterPhysicsOceanology.CalculateWaterInfo | Source/OceanologyIntegration/Private/WaterPhysicsSimulations/WaterPhysics_Oceanology.cpp:248-280 | the answer is the Oceanology water information for whether the water actor is valid and the wave-height function was found |
| PluginVersions.Split | Source/OceanologyIntegration/Private/OceanologyIntegrationModule.cpp:25 | a split succeeds exactly when the separator occurs; the string is then the part before, the separator and the part after, and the part before holds no separator, so the split is at the first one |
| PluginVersions.SplitAtFirst | Source/RiverologyIntegration/Private/RiverologyIntegrationModule.cpp:26 | splitting a string made of a separator-free part, the separator and any rest gives back exactly that part and that rest |
| PluginVersions.AtoiShow | Source/RiverologyIntegration/Private/RiverologyIntegrationModule.cpp:28 | Atoi reads a written-out natural number back exactly, stopping at the first character that is not a digit |
| PluginVersions.ParseVersionNoDot | Source/OceanologyIntegration/Private/OceanologyIntegrationModule.cpp:25-26 | a VersionName without '.' leaves all three version numbers unchanged |
| PluginVersions.ParseVersionOneDot | Source/RiverologyIntegration/Private/RiverologyIntegrationModule.cpp:26-36 | with exactly one '.', the major and minor versions are read from the two sides and the patch version is kept |
| PluginVersions.ParseVersionTwoDots | Source/OceanologyIntegration/Private/OceanologyIntegrationModule.cpp:25-32 | with two or more dots, major and minor come from the first two parts and the patch is read from all of the text after the second dot |
| PluginVersions.ParseVersionRoundTrip | Source/RiverologyIntegration/Private/RiverologyIntegrationModule.cpp:26-37 | a VersionName written as "major.minor.patch" reads back as exactly that version, whatever the versions were before |
| PluginVersions.ParseVersionExtraParts | Source/OceanologyIntegration/Private/OceanologyIntegrationModule.cpp:28-32 | a VersionName with more than three parts, such as "5.1.7.2", reads its patch from the number that starts the text after the second dot |
| PluginVersions.PluginVersion.constructor | Source/RiverologyIntegration/Private/RiverologyIntegrationModule.cpp:10-12 | the three global version numbers start at 0 |
| PluginVersions.PluginVersion.StartupModule | Source/OceanologyIntegration/Private/OceanologyIntegrationModule.cpp:13-38 | when the plugin is not found the versions stay as they were; otherwise they become what the version reading gives for the plugin's VersionName |

## Left out

- The force formulas of CalculateWaterForces (buoyancy, viscous resistance, pressure drag, slamming) are not modelled. They are floating-point numerics over `Pow`, `log10` and `InvSqrt`. Only force clamping, force accumulation and the swept-area slot bookkeeping are kept.
- PhysicsScene.ClampForce: takes the momentum as a parameter. The linear and angular momenta it is applied against (mass times velocity over the time step, and the rotated inertia tensor times angular velocity) are floating-point physics state and are not computed.
- StepWaterPhysicsScene and the parallel stepping strategy are modelled only as far as the synchronous pruning and the vertex water fetch. ParallelFor, the per-vertex critical sections of the section cache and the lock of the thread copies are modelled sequentially. The `goto` retries in the section lookup can only fire under contention, so they do not occur in the sequential model.
- Extracting collision primitives from the physics engine's body instances is not modelled: GenerateBodyInstanceWaterPhysicsCollisionSetup, physics commands, body-instance lookup, and applying forces and torques to bodies. These are calls into the engine. The collision component's setup is built from the element lists it is given.
- Transforms, rotations, quaternions, `GetSafeNormal` and square roots are uninterpreted. They appear as function parameters, or the model compares squares instead of lengths. The capsule's surface projection is a parameter of its subdivision.
- The substep transforms (GetSubstepComponentWorldTransform, GetWaterPhysicsCollisionWorldTransform) are not part of this model.
- The water queries of the integrations are left out. This covers the Riverology spline projection, the engine's water bodies and GenericWaterBody.
- The Oceanology actor's per-thread copies of the water actor are not modelled. This covers the thread copies, EndPlay and PreWaterPhysicsSceneTick. So is its `ProcessEvent` call: the wave height it returns is a parameter of CalculateWaterInfo. The class loader and the function lookup are the parameter `functionExists`.
- The timer delay before a bounds actor's initial overlaps are replayed is left out. The model runs the timer's body as its own method.
- Editor-only code is not modelled. This covers the Oceanology PostEditChangeProperty check of the water actor's class, the editor component-validation table in the actor's Tick and RemoveActorFromWater, and the editor customisations, visualisers and debug drawing.
- Weak-pointer validity is the world's `ActorValid`. Garbage collection is not modelled.
- Blueprint broadcasts and events (actor added or removed, settings changed) are recorded as notices. No listener code runs.
- Tessellation.TriangleArray.LongestLine: which of several equally long edges the engine's unstable sort puts first is left open. The model only fixes that a longest edge is chosen.
- WaterBodies.PrioritySorted: the engine's sort is not stable, while the model fixes one stable order of equal priorities. The proved properties (sorted by priority, a permutation) hold for any order the engine picks.
- PluginVersions.Atoi: the 32-bit overflow of FCString::Atoi on more than nine digits is not modelled. Atoi is modelled on unbounded integers.
- PluginVersions.Split: FString::Split's case-insensitive search is modelled as plain character equality, which is the same for the separator '.'.
- PhysicsActor.WaterPhysicsActor.RemoveActorFromWater follows the code, not the header comment. A negative delay removes at once; zero or more queues the removal. The comment at Source/WaterPhysics/Public/WaterPhysicsSimulations/WaterPhysicsActor.h:57-59 says instead that a delay above 0 removes at once.
- Tessellation.TriangleArray.TessellateTriangles: requires a positive maximum area in area mode. With a maximum area of 0 or less, the source's recursion keeps splitting any triangle of positive area and does not terminate.
- Tessellation.TriangleArray.TessellateArea: requires a positive maximum area, for the same reason.
- Tessellation.TriangleArray.TessellateRecursive: requires a positive maximum area, for the same reason. It also carries a ghost depth bound that decreases with each split.
- Triangulation.TessellateMesh: requires a positive maximum area in area mode, for the same reason.
- Oceanology.WaterPhysicsOceanology.OnActorBeginOverlapBoundsActor: follows the evidently intended tracker (see Findings). The handler as written is modelled as Oceanology.AsWrittenBeginOverlap.
- Oceanology.WaterPhysicsOceanology.OnActorEndOverlapBoundsActor: follows the evidently intended tracker (see Findings). The handler as written is modelled as Oceanology.AsWrittenEndOverlap.
- SurfaceProvider.CellOf: uses the evidently intended in-cell weights (see Findings). The weights as written are the relative location times the inverse section size (Source/WaterPhysics/Private/WorldAlignedWaterSurfaceProvider.h:114-115). They are modelled as SurfaceProvider.CellAlphaAsWritten, and the model does not promise the answers those weights give.
- SurfaceProvider.WaterInfoSection.CalculateCellInfoAtLocation: returns the cell with the in-cell weights of SurfaceProvider.CellOf, not the weights as written at WorldAlignedWaterSurfaceProvider.h:114-115.
- SurfaceProvider.WorldAlignedWaterSurfaceProvider.SampleCell: returns the cell with the in-cell weights of SurfaceProvider.CellOf, not the weights as written at WorldAlignedWaterSurfaceProvider.h:114-115.
- SurfaceProvider.WorldAlignedWaterSurfaceProvider.CalculateWaterInfoAtLocation: interpolates with the in-cell weights of SurfaceProvider.CellOf. Its answers off the lattice vertices are those of the corrected weights, not of the weights as written at WorldAlignedWaterSurfaceProvider.h:114-115.
- SurfaceProvider.WorldAlignedWaterSurfaceProvider.CalculateVerticesWaterInfo: interpolates each vertex with the in-cell weights of SurfaceProvider.CellOf, not the weights as written at WorldAlignedWaterSurfaceProvider.h:114-115.
- PhysicsScene.FetchVerticesWaterInfo: in surface-provider mode, each vertex's answer uses the in-cell weights of SurfaceProvider.CellOf, not the weights as written at WorldAlignedWaterSurfaceProvider.h:114-115.
- PhysicsActor.WaterPhysicsActor.Tick: states that every actor that falls due with a registered component gets a removal notice, and the count of notices, only for worlds where no component is listed by two actors (Engine.World.SingleOwners). The engine gives a component one owner, but the model's world does not enforce that.
- Triangulation.TriangulateSphere: states the vertex count for no subdivision pass (12) and for one pass (42, from the 30 edges of the icosphere). For more passes it states only the index count.
- Profiling, the data profiler's file output, logging and the build and module-loading plumbing are not part of this model.

## Findings

| source | as written | input that shows it | evidently intended | confidence | as-written member | corrected member |
|---|---|---|---|---|---|---|
| Source/WaterPhysics/Private/WaterPhysicsScene.cpp:1497-1518 | after bodies without triangles are swap-removed from the triangulation results and the body list, the fetch step still reads the fetching method from the processing results at the same index, and that array was not pruned | two bodies whose first triangulation is empty, the first fetched PerVertex and the second PerObject: the one surviving body is fetched PerVertex | each surviving body is fetched with the method of its own merged settings, the processing result its triangulation result came from | not executed | PhysicsScene.FetchingMethodAsWrittenMisaligned | PhysicsScene.FetchingMethodOwnBody |
| Source/WaterPhysics/Private/WorldAlignedWaterSurfaceProvider.h:114-115 | the interpolation weights AlphaX and AlphaY are the relative location times the inverse section size, a position within the whole section, while the four samples are the corners of one 200-unit cell | a location on lattice vertex (1, 0), relative location (200, 0): the weight is 0.01 instead of 0, so whenever the cell's first two samples differ the interpolation does not give back the vertex's own sample | the weights are positions within the cell (relative location times the inverse cell size, minus the cell index), so each lattice vertex gets exactly its own sample | not executed | SurfaceProvider.CellAlphaAsWrittenOffVertex | SurfaceProvider.CellOfAtVertex |
| Source/OceanologyIntegration/Private/WaterPhysicsSimulations/WaterPhysics_Oceanology.cpp:295-316 | the tracker entry of an actor records the actor itself rather than the overlapped bounds actor, so it holds at most one element, and the first end-overlap empties it | an actor x begins overlapping bounds actors b1 and b2, then ends overlapping b1: x is removed from the water although it is still inside b2 | as the header (WaterPhysics_Oceanology.h:69-70) states, an actor stays simulated as long as it overlaps any bounds actor: the entry records the overlapped bounds actors | not executed | Oceanology.AsWrittenLeavesWhileInsideOtherBounds | Oceanology.IntendedStaysWhileInsideOtherBounds |
