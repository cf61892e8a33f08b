// Plain data of the plugin: water samples, per-body settings with their override flags,
// the settings merge, indexed triangle meshes and collision setups.

module WaterPhysicsTypes {
  import opened Vectors

  /** FGetWaterInfoResult; every vector defaults to zero. */
  datatype WaterInfoResult = WaterInfoResult(waterSurfaceLocation: Vec3, waterSurfaceNormal: Vec3, waterVelocity: Vec3)

  const DefaultWaterInfo: WaterInfoResult := WaterInfoResult(Zero, Zero, Zero)

  datatype WaterInfoFetchingMethod = WaterSurfaceProvider | PerVertex | PerObject

  /** The result of a lookup that may find nothing (a null pointer in the engine). */
  datatype Option<T> = None | Some(value: T)

  datatype DebugLevel = DebugNone | DebugNormal | DebugVerbose

  datatype TessellationMode = Levels | Area

  datatype TessellationSettings = TessellationSettings(mode: TessellationMode, maxArea: real, levels: int)

  const DefaultTessellationSettings: TessellationSettings := TessellationSettings(Levels, 1.0, 1)

  datatype SubdivisionSettings = SubdivisionSettings(box: int, convex: int, sphere: int, capsule: int)

  /** A settings value together with its bOverride_ flag. */
  datatype Override<T> = Override(isSet: bool, value: T)

  datatype WaterPhysicsSettings = WaterPhysicsSettings(
    fluidDensity: Override<real>,
    fluidKinematicViscocity: Override<real>,
    waterInfoFetchingMethod: Override<WaterInfoFetchingMethod>,
    subdivisionSettings: Override<SubdivisionSettings>,
    submergedTessellationSettings: Override<TessellationSettings>,
    pressureCoefficientOfLinearSpeed: Override<real>,
    pressureCoefficientOfExponentialSpeed: Override<real>,
    pressureAngularDependence: Override<real>,
    suctionCoefficientOfLinearSpeed: Override<real>,
    suctionCoefficientOfExponentialSpeed: Override<real>,
    suctionAngularDependence: Override<real>,
    dragReferenceSpeed: Override<real>,
    maxSlammingForceAtAcceleration: Override<real>,
    slammingForceExponent: Override<real>,
    enableBuoyancyForce: Override<bool>,
    enableViscousFluidResistance: Override<bool>,
    enablePressureDragForce: Override<bool>,
    enableSlammingForce: Override<bool>,
    enableForceClamping: Override<bool>,
    debugSubmersion: Override<DebugLevel>,
    debugTriangleData: Override<DebugLevel>,
    debugBuoyancyForce: Override<DebugLevel>,
    debugViscousFluidResistance: Override<DebugLevel>,
    debugPressureDragForce: Override<DebugLevel>,
    debugSlammingForce: Override<DebugLevel>,
    debugFluidVelocity: Override<DebugLevel>)

  /** Number of overridable fields of WaterPhysicsSettings. */
  const FieldCount := 26

  /** Any one settings value, so that the fields can be treated uniformly. */
  datatype FieldValue =
    | RealValue(r: real)
    | BoolValue(b: bool)
    | MethodValue(m: WaterInfoFetchingMethod)
    | SubdivisionValue(s: SubdivisionSettings)
    | TessellationValue(t: TessellationSettings)
    | DebugValue(d: DebugLevel)

  /** Field i (in declaration order) with its override flag. */
  function Field(s: WaterPhysicsSettings, i: nat): Override<FieldValue>
    requires i < FieldCount
  {
    match i
    case 0 => Override(s.fluidDensity.isSet, RealValue(s.fluidDensity.value))
    case 1 => Override(s.fluidKinematicViscocity.isSet, RealValue(s.fluidKinematicViscocity.value))
    case 2 => Override(s.waterInfoFetchingMethod.isSet, MethodValue(s.waterInfoFetchingMethod.value))
    case 3 => Override(s.subdivisionSettings.isSet, SubdivisionValue(s.subdivisionSettings.value))
    case 4 => Override(s.submergedTessellationSettings.isSet, TessellationValue(s.submergedTessellationSettings.value))
    case 5 => Override(s.pressureCoefficientOfLinearSpeed.isSet, RealValue(s.pressureCoefficientOfLinearSpeed.value))
    case 6 => Override(s.pressureCoefficientOfExponentialSpeed.isSet, RealValue(s.pressureCoefficientOfExponentialSpeed.value))
    case 7 => Override(s.pressureAngularDependence.isSet, RealValue(s.pressureAngularDependence.value))
    case 8 => Override(s.suctionCoefficientOfLinearSpeed.isSet, RealValue(s.suctionCoefficientOfLinearSpeed.value))
    case 9 => Override(s.suctionCoefficientOfExponentialSpeed.isSet, RealValue(s.suctionCoefficientOfExponentialSpeed.value))
    case 10 => Override(s.suctionAngularDependence.isSet, RealValue(s.suctionAngularDependence.value))
    case 11 => Override(s.dragReferenceSpeed.isSet, RealValue(s.dragReferenceSpeed.value))
    case 12 => Override(s.maxSlammingForceAtAcceleration.isSet, RealValue(s.maxSlammingForceAtAcceleration.value))
    case 13 => Override(s.slammingForceExponent.isSet, RealValue(s.slammingForceExponent.value))
    case 14 => Override(s.enableBuoyancyForce.isSet, BoolValue(s.enableBuoyancyForce.value))
    case 15 => Override(s.enableViscousFluidResistance.isSet, BoolValue(s.enableViscousFluidResistance.value))
    case 16 => Override(s.enablePressureDragForce.isSet, BoolValue(s.enablePressureDragForce.value))
    case 17 => Override(s.enableSlammingForce.isSet, BoolValue(s.enableSlammingForce.value))
    case 18 => Override(s.enableForceClamping.isSet, BoolValue(s.enableForceClamping.value))
    case 19 => Override(s.debugSubmersion.isSet, DebugValue(s.debugSubmersion.value))
    case 20 => Override(s.debugTriangleData.isSet, DebugValue(s.debugTriangleData.value))
    case 21 => Override(s.debugBuoyancyForce.isSet, DebugValue(s.debugBuoyancyForce.value))
    case 22 => Override(s.debugViscousFluidResistance.isSet, DebugValue(s.debugViscousFluidResistance.value))
    case 23 => Override(s.debugPressureDragForce.isSet, DebugValue(s.debugPressureDragForce.value))
    case 24 => Override(s.debugSlammingForce.isSet, DebugValue(s.debugSlammingForce.value))
    case _ => Override(s.debugFluidVelocity.isSet, DebugValue(s.debugFluidVelocity.value))
  }

  /** A freshly constructed FWaterPhysicsSettings: every flag cleared, every value at its default. */
  function NewSettings(): (s: WaterPhysicsSettings)
    ensures forall i :: 0 <= i < FieldCount ==> !Field(s, i).isSet
  {
    WaterPhysicsSettings(
      Override(false, 997.0),
      Override(false, 1.0023),
      Override(false, WaterSurfaceProvider),
      Override(false, SubdivisionSettings(0, 0, 1, 1)),
      Override(false, DefaultTessellationSettings),
      Override(false, 2000.0),
      Override(false, 100.0),
      Override(false, 0.5),
      Override(false, 2000.0),
      Override(false, 100.0),
      Override(false, 0.5),
      Override(false, 5.0),
      Override(false, 20.0),
      Override(false, 2.0),
      Override(false, true),
      Override(false, true),
      Override(false, true),
      Override(false, true),
      Override(false, false),
      Override(false, DebugNone),
      Override(false, DebugNone),
      Override(false, DebugNone),
      Override(false, DebugNone),
      Override(false, DebugNone),
      Override(false, DebugNone),
      Override(false, DebugNone))
  }

  /** The merge rule for one field: the override's value if its flag is set, else the
      default's if its flag is set, else a cleared flag over the constructor's value. */
  function MergeField<T>(def: Override<T>, ov: Override<T>, initial: T): Override<T> {
    if ov.isSet then ov
    else if def.isSet then def
    else Override(false, initial)
  }

  /** MergeWaterPhysicsSettings(DefaultSettings, OverrideSettings). */
  function Merge(def: WaterPhysicsSettings, ov: WaterPhysicsSettings): WaterPhysicsSettings
  {
    var n := NewSettings();
    WaterPhysicsSettings(
      MergeField(def.fluidDensity, ov.fluidDensity, n.fluidDensity.value),
      MergeField(def.fluidKinematicViscocity, ov.fluidKinematicViscocity, n.fluidKinematicViscocity.value),
      MergeField(def.waterInfoFetchingMethod, ov.waterInfoFetchingMethod, n.waterInfoFetchingMethod.value),
      MergeField(def.subdivisionSettings, ov.subdivisionSettings, n.subdivisionSettings.value),
      MergeField(def.submergedTessellationSettings, ov.submergedTessellationSettings, n.submergedTessellationSettings.value),
      MergeField(def.pressureCoefficientOfLinearSpeed, ov.pressureCoefficientOfLinearSpeed, n.pressureCoefficientOfLinearSpeed.value),
      MergeField(def.pressureCoefficientOfExponentialSpeed, ov.pressureCoefficientOfExponentialSpeed, n.pressureCoefficientOfExponentialSpeed.value),
      MergeField(def.pressureAngularDependence, ov.pressureAngularDependence, n.pressureAngularDependence.value),
      MergeField(def.suctionCoefficientOfLinearSpeed, ov.suctionCoefficientOfLinearSpeed, n.suctionCoefficientOfLinearSpeed.value),
      MergeField(def.suctionCoefficientOfExponentialSpeed, ov.suctionCoefficientOfExponentialSpeed, n.suctionCoefficientOfExponentialSpeed.value),
      MergeField(def.suctionAngularDependence, ov.suctionAngularDependence, n.suctionAngularDependence.value),
      MergeField(def.dragReferenceSpeed, ov.dragReferenceSpeed, n.dragReferenceSpeed.value),
      MergeField(def.maxSlammingForceAtAcceleration, ov.maxSlammingForceAtAcceleration, n.maxSlammingForceAtAcceleration.value),
      MergeField(def.slammingForceExponent, ov.slammingForceExponent, n.slammingForceExponent.value),
      MergeField(def.enableBuoyancyForce, ov.enableBuoyancyForce, n.enableBuoyancyForce.value),
      MergeField(def.enableViscousFluidResistance, ov.enableViscousFluidResistance, n.enableViscousFluidResistance.value),
      MergeField(def.enablePressureDragForce, ov.enablePressureDragForce, n.enablePressureDragForce.value),
      MergeField(def.enableSlammingForce, ov.enableSlammingForce, n.enableSlammingForce.value),
      MergeField(def.enableForceClamping, ov.enableForceClamping, n.enableForceClamping.value),
      MergeField(def.debugSubmersion, ov.debugSubmersion, n.debugSubmersion.value),
      MergeField(def.debugTriangleData, ov.debugTriangleData, n.debugTriangleData.value),
      MergeField(def.debugBuoyancyForce, ov.debugBuoyancyForce, n.debugBuoyancyForce.value),
      MergeField(def.debugViscousFluidResistance, ov.debugViscousFluidResistance, n.debugViscousFluidResistance.value),
      MergeField(def.debugPressureDragForce, ov.debugPressureDragForce, n.debugPressureDragForce.value),
      MergeField(def.debugSlammingForce, ov.debugSlammingForce, n.debugSlammingForce.value),
      MergeField(def.debugFluidVelocity, ov.debugFluidVelocity, n.debugFluidVelocity.value))
  }

  /** The merge works field by field: every field obeys the one-field rule on its own. */
  lemma MergeFieldwise(def: WaterPhysicsSettings, ov: WaterPhysicsSettings, i: nat)
    requires i < FieldCount
    ensures Field(Merge(def, ov), i) == MergeField(Field(def, i), Field(ov, i), Field(NewSettings(), i).value)
  {
    // one case per field, so that each unfolds Field and Merge on its own
    match i {
      case 0 => {}
      case 1 => {}
      case 2 => {}
      case 3 => {}
      case 4 => {}
      case 5 => {}
      case 6 => {}
      case 7 => {}
      case 8 => {}
      case 9 => {}
      case 10 => {}
      case 11 => {}
      case 12 => {}
      case 13 => {}
      case 14 => {}
      case 15 => {}
      case 16 => {}
      case 17 => {}
      case 18 => {}
      case 19 => {}
      case 20 => {}
      case 21 => {}
      case 22 => {}
      case 23 => {}
      case 24 => {}
      case _ => {}
    }
  }

  /** Settings that agree field by field are equal: Field is a faithful view of the record. */
  lemma FieldsDetermineSettings(a: WaterPhysicsSettings, b: WaterPhysicsSettings)
    requires forall i :: 0 <= i < FieldCount ==> Field(a, i) == Field(b, i)
    ensures a == b
  {
    assert Field(a, 0) == Field(b, 0) && Field(a, 1) == Field(b, 1) && Field(a, 2) == Field(b, 2);
    assert Field(a, 3) == Field(b, 3) && Field(a, 4) == Field(b, 4) && Field(a, 5) == Field(b, 5);
    assert Field(a, 6) == Field(b, 6) && Field(a, 7) == Field(b, 7) && Field(a, 8) == Field(b, 8);
    assert Field(a, 9) == Field(b, 9) && Field(a, 10) == Field(b, 10) && Field(a, 11) == Field(b, 11);
    assert Field(a, 12) == Field(b, 12) && Field(a, 13) == Field(b, 13) && Field(a, 14) == Field(b, 14);
    assert Field(a, 15) == Field(b, 15) && Field(a, 16) == Field(b, 16) && Field(a, 17) == Field(b, 17);
    assert Field(a, 18) == Field(b, 18) && Field(a, 19) == Field(b, 19) && Field(a, 20) == Field(b, 20);
    assert Field(a, 21) == Field(b, 21) && Field(a, 22) == Field(b, 22) && Field(a, 23) == Field(b, 23);
    assert Field(a, 24) == Field(b, 24) && Field(a, 25) == Field(b, 25);
  }

  /** The three outcomes of merging one field. */
  lemma MergeFieldOutcome(def: WaterPhysicsSettings, ov: WaterPhysicsSettings, i: nat)
    requires i < FieldCount
    ensures Field(ov, i).isSet ==> Field(Merge(def, ov), i) == Field(ov, i)
    ensures !Field(ov, i).isSet && Field(def, i).isSet ==> Field(Merge(def, ov), i) == Field(def, i)
    ensures !Field(ov, i).isSet && !Field(def, i).isSet ==>
      !Field(Merge(def, ov), i).isSet && Field(Merge(def, ov), i).value == Field(NewSettings(), i).value
  {
    MergeFieldwise(def, ov, i);
  }

  lemma MergeFieldAssociative<T>(a: Override<T>, b: Override<T>, c: Override<T>, init: T)
    ensures MergeField(MergeField(a, b, init), c, init) == MergeField(a, MergeField(b, c, init), init)
  {
  }

  /** Merging is associative, so a stack of layers may be folded in either grouping. */
  lemma MergeAssociative(a: WaterPhysicsSettings, b: WaterPhysicsSettings, c: WaterPhysicsSettings)
    ensures Merge(Merge(a, b), c) == Merge(a, Merge(b, c))
  {
    forall i | 0 <= i < FieldCount
      ensures Field(Merge(Merge(a, b), c), i) == Field(Merge(a, Merge(b, c)), i)
    {
      var init := Field(NewSettings(), i).value;
      MergeFieldwise(a, b, i);
      MergeFieldwise(Merge(a, b), c, i);
      MergeFieldwise(b, c, i);
      MergeFieldwise(a, Merge(b, c), i);
      MergeFieldAssociative(Field(a, i), Field(b, i), Field(c, i), init);
    }
    FieldsDetermineSettings(Merge(Merge(a, b), c), Merge(a, Merge(b, c)));
  }

  /** Settings whose unset fields hold the constructor's values (what every merge returns). */
  predicate Normalized(s: WaterPhysicsSettings) {
    forall i :: 0 <= i < FieldCount && !Field(s, i).isSet ==> Field(s, i) == Field(NewSettings(), i)
  }

  lemma MergeNormalized(def: WaterPhysicsSettings, ov: WaterPhysicsSettings)
    ensures Normalized(Merge(def, ov))
  {
    forall i | 0 <= i < FieldCount {
      MergeFieldwise(def, ov, i);
    }
  }

  /** A fresh settings record is a two-sided identity of the merge on normalized settings,
      and merging a normalized record with itself changes nothing. */
  lemma MergeIdentity(s: WaterPhysicsSettings)
    requires Normalized(s)
    ensures Merge(NewSettings(), s) == s
    ensures Merge(s, NewSettings()) == s
    ensures Merge(s, s) == s
  {
    forall i | 0 <= i < FieldCount
      ensures Field(Merge(NewSettings(), s), i) == Field(s, i)
      ensures Field(Merge(s, NewSettings()), i) == Field(s, i)
      ensures Field(Merge(s, s), i) == Field(s, i)
    {
      MergeFieldwise(NewSettings(), s, i);
      MergeFieldwise(s, NewSettings(), i);
      MergeFieldwise(s, s, i);
    }
    FieldsDetermineSettings(Merge(NewSettings(), s), s);
    FieldsDetermineSettings(Merge(s, NewSettings()), s);
    FieldsDetermineSettings(Merge(s, s), s);
  }

  /** Folding merges left to right over layers, as a component's settings are accumulated. */
  function MergeLayers(first: WaterPhysicsSettings, rest: seq<WaterPhysicsSettings>): WaterPhysicsSettings
    decreases |rest|
  {
    if |rest| == 0 then first
    else Merge(MergeLayers(first, rest[..|rest| - 1]), rest[|rest| - 1])
  }

  /** The layer a field's merged value comes from: the last layer that sets it. */
  lemma MergeLayersLastWins(first: WaterPhysicsSettings, rest: seq<WaterPhysicsSettings>, i: nat)
    requires i < FieldCount
    ensures Field(MergeLayers(first, rest), i).isSet <==>
      (Field(first, i).isSet || exists k :: 0 <= k < |rest| && Field(rest[k], i).isSet)
    ensures forall k :: (0 <= k < |rest| && Field(rest[k], i).isSet &&
        forall j :: k < j < |rest| ==> !Field(rest[j], i).isSet) ==>
      Field(MergeLayers(first, rest), i) == Field(rest[k], i)
    ensures (forall k :: 0 <= k < |rest| ==> !Field(rest[k], i).isSet) && |rest| > 0 ==>
      Field(MergeLayers(first, rest), i) ==
        (if Field(first, i).isSet then Field(first, i) else Field(NewSettings(), i))
  {
    var col, initial := Column(rest, i), Field(NewSettings(), i).value;
    MergeLayersColumn(first, rest, i);
    FoldIsSet(Field(first, i), col, initial);
    forall k | 0 <= k < |rest| && Field(rest[k], i).isSet && forall j :: k < j < |rest| ==> !Field(rest[j], i).isSet
      ensures Field(MergeLayers(first, rest), i) == Field(rest[k], i)
    {
      FoldLastSetter(Field(first, i), col, initial, k);
    }
    if (forall k :: 0 <= k < |rest| ==> !Field(rest[k], i).isSet) && |rest| > 0 {
      FoldNoneSet(Field(first, i), col, initial);
    }
  }

  /** Field i of every layer, in order. */
  function Column(layers: seq<WaterPhysicsSettings>, i: nat): (r: seq<Override<FieldValue>>)
    requires i < FieldCount
    ensures |r| == |layers| && forall k :: 0 <= k < |layers| ==> r[k] == Field(layers[k], i)
  {
    seq(|layers|, k requires 0 <= k < |layers| => Field(layers[k], i))
  }

  /** The one-field merge rule folded over a column of overrides, from the left. */
  function FoldField<T>(x: Override<T>, col: seq<Override<T>>, initial: T): Override<T>
    decreases |col|
  {
    if |col| == 0 then x
    else MergeField(FoldField(x, col[..|col| - 1], initial), col[|col| - 1], initial)
  }

  /** Field i of a merged stack is the one-field rule folded over the stack's column i. */
  lemma {:induction false} MergeLayersColumn(first: WaterPhysicsSettings, rest: seq<WaterPhysicsSettings>, i: nat)
    requires i < FieldCount
    ensures Field(MergeLayers(first, rest), i) == FoldField(Field(first, i), Column(rest, i), Field(NewSettings(), i).value)
    decreases |rest|
  {
    if |rest| > 0 {
      var init := rest[..|rest| - 1];
      MergeLayersColumn(first, init, i);
      MergeFieldwise(MergeLayers(first, init), rest[|rest| - 1], i);
      assert Column(rest, i)[..|rest| - 1] == Column(init, i);
    }
  }

  /** A folded field is set exactly when the start or some override in the column is. */
  lemma {:induction false} FoldIsSet<T>(x: Override<T>, col: seq<Override<T>>, initial: T)
    ensures FoldField(x, col, initial).isSet <==> (x.isSet || exists k :: 0 <= k < |col| && col[k].isSet)
    decreases |col|
  {
    if |col| > 0 {
      var init := col[..|col| - 1];
      FoldIsSet(x, init, initial);
      if exists k :: 0 <= k < |init| && init[k].isSet {
        var k :| 0 <= k < |init| && init[k].isSet;
        assert col[k] == init[k];
      }
      if exists k :: 0 <= k < |col| && col[k].isSet {
        var k :| 0 <= k < |col| && col[k].isSet;
        if k < |init| {
          assert init[k] == col[k];
        }
      }
    }
  }

  /** A folded field is the last override in the column that is set. */
  lemma {:induction false} FoldLastSetter<T>(x: Override<T>, col: seq<Override<T>>, initial: T, k: int)
    requires 0 <= k < |col| && col[k].isSet
    requires forall j :: k < j < |col| ==> !col[j].isSet
    ensures FoldField(x, col, initial) == col[k]
    decreases |col|
  {
    var init := col[..|col| - 1];
    if k < |col| - 1 {
      assert init[k] == col[k];
      FoldLastSetter(x, init, initial, k);
    }
  }

  /** With no override set in a non-empty column, the folded field is the start if it is set,
      else a cleared flag over the initial value. */
  lemma {:induction false} FoldNoneSet<T>(x: Override<T>, col: seq<Override<T>>, initial: T)
    requires |col| > 0 && forall k :: 0 <= k < |col| ==> !col[k].isSet
    ensures FoldField(x, col, initial) == if x.isSet then x else Override(false, initial)
    decreases |col|
  {
    var init := col[..|col| - 1];
    if |init| > 0 {
      assert forall k :: 0 <= k < |init| ==> init[k] == col[k];
      FoldNoneSet(x, init, initial);
    }
  }

  /** WaterPhysics::FIndexedTriangleMesh: a flat vertex list and a flat index list, three per triangle. */
  datatype IndexedTriangleMesh = IndexedTriangleMesh(vertexList: seq<Vec3>, indexList: seq<int>)

  /** Every index refers to a vertex, and the indices come in whole triangles. */
  predicate WellFormed(m: IndexedTriangleMesh) {
    |m.indexList| % 3 == 0 &&
    forall k :: 0 <= k < |m.indexList| ==> 0 <= m.indexList[k] < |m.vertexList|
  }

  /** A rotation in the engine's pitch/yaw/roll form; carried through, never computed with. */
  datatype Rotator = Rotator(pitch: real, yaw: real, roll: real)

  const ZeroRotator: Rotator := Rotator(0.0, 0.0, 0.0)

  datatype SphereElem = SphereElem(center: Vec3, radius: real)
  datatype BoxElem = BoxElem(center: Vec3, rotation: Rotator, extent: Vec3)
  datatype SphylElem = SphylElem(center: Vec3, rotation: Rotator, radius: real, halfHeight: real)

  datatype CollisionSetup = CollisionSetup(
    sphereElems: seq<SphereElem>,
    boxElems: seq<BoxElem>,
    sphylElems: seq<SphylElem>,
    meshElems: seq<IndexedTriangleMesh>)

  const EmptyCollisionSetup: CollisionSetup := CollisionSetup([], [], [], [])

  /** NumCollisionElems: the number of elements over all four lists; zero only for an empty setup. */
  function NumCollisionElems(s: CollisionSetup): (n: nat)
    ensures n == 0 <==> s == EmptyCollisionSetup
    ensures n >= |s.sphereElems| && n >= |s.boxElems| && n >= |s.sphylElems| && n >= |s.meshElems|
  {
    |s.sphereElems| + |s.boxElems| + |s.sphylElems| + |s.meshElems|
  }
}
