// UWaterPhysicsSceneComponent: the gameplay-facing owner of one water-physics scene. It adds
// and removes actors, components and individual bodies, overwrites body settings, and reports
// per-component sums of the forces and submerged area the last step computed.

module SceneComponent {
  import opened Vectors
  import opened Engine
  import opened WaterPhysicsTypes
  import opened PhysicsScene

  /** TArray::AddUnique: `x` is appended only when it is not there yet. */
  function AddUnique<T(==,!new)>(s: seq<T>, x: T): (r: seq<T>)
    ensures forall y :: y in r <==> y in s || y == x
    ensures x in s ==> r == s
    ensures x !in s ==> r == s + [x]
  {
    if x in s then s else s + [x]
  }

  /** The socket names AddComponentToWaterPhysics registers: with bAllBodies, every body (or
      socket) name the component reports and NAME_None; otherwise the one given name. */
  function RegisteredNames(info: ComponentInfo, allBodies: bool, bodyName: Name): (r: seq<Name>)
    ensures allBodies ==> forall n :: n in r <==> n in info.bodyNames || n == NameNone
    ensures !allBodies ==> r == [bodyName]
  {
    if allBodies then AddUnique(info.bodyNames, NameNone) else [bodyName]
  }

  /** A component the scene accepts: valid, and a primitive or an implementer of the
      water-physics collision interface. */
  predicate Registrable(world: World, c: ComponentId) {
    world.ComponentValid(c) &&
    (world.components[c].implementsCollisionInterface || world.IsA(c, PrimitiveComponentClass))
  }

  /** AddComponentBody once per name, in order. */
  function WithBodiesAdded(bodies: BodyMap, c: ComponentId, names: seq<Name>, settings: WaterPhysicsSettings): (r: BodyMap)
    ensures r.Keys == bodies.Keys + (if |names| == 0 then {} else {c})
    ensures forall c' :: c' != c && c' in bodies ==> r[c'] == bodies[c']
  {
    if |names| == 0 then bodies
    else WithBodyAdded(WithBodiesAdded(bodies, c, names[..|names| - 1], settings), c, names[|names| - 1], settings)
  }

  /** Every added name is registered with the given settings. */
  lemma {:induction false} WithBodiesAddedRegisters(bodies: BodyMap, c: ComponentId, names: seq<Name>, settings: WaterPhysicsSettings, k: nat)
    requires k < |names|
    ensures var found := FindComponentBody(WithBodiesAdded(bodies, c, names, settings), c, names[k]);
      found.Some? && found.value.settings == settings
    decreases |names|
  {
    var prefix, last := names[..|names| - 1], names[|names| - 1];
    var before := WithBodiesAdded(bodies, c, prefix, settings);
    if names[k] == last {
      AddedBodyFound(before, c, last, settings);
    } else {
      WithBodiesAddedRegisters(bodies, c, prefix, settings, k);
      AddLeavesOthers(before, c, last, settings, c, names[k]);
    }
  }

  /** Every other (component, name) lookup finds what it found before. */
  lemma {:induction false} WithBodiesAddedLeavesOthers(bodies: BodyMap, c: ComponentId, names: seq<Name>, settings: WaterPhysicsSettings, c': ComponentId, n': Name)
    requires c' != c || n' !in names
    ensures FindComponentBody(WithBodiesAdded(bodies, c, names, settings), c', n') == FindComponentBody(bodies, c', n')
    decreases |names|
  {
    if |names| > 0 {
      var prefix, last := names[..|names| - 1], names[|names| - 1];
      var before := WithBodiesAdded(bodies, c, prefix, settings);
      assert n' in prefix ==> n' in names by {
        if n' in prefix {
          var k :| 0 <= k < |prefix| && prefix[k] == n';
          assert names[k] == n';
        }
      }
      WithBodiesAddedLeavesOthers(bodies, c, prefix, settings, c', n');
      AddLeavesOthers(before, c, last, settings, c', n');
    }
  }

  lemma {:induction false} WithBodiesAddedKeepsNamesUnique(bodies: BodyMap, c: ComponentId, names: seq<Name>, settings: WaterPhysicsSettings)
    requires NamesUnique(bodies)
    ensures NamesUnique(WithBodiesAdded(bodies, c, names, settings))
    decreases |names|
  {
    if |names| > 0 {
      var before := WithBodiesAdded(bodies, c, names[..|names| - 1], settings);
      WithBodiesAddedKeepsNamesUnique(bodies, c, names[..|names| - 1], settings);
      AddKeepsNamesUnique(before, c, names[|names| - 1], settings);
      assert WithBodiesAdded(bodies, c, names, settings) == WithBodyAdded(before, c, names[|names| - 1], settings);
    }
  }

  /** What AddComponentToWaterPhysics does to the registry. */
  function ComponentAdded(bodies: BodyMap, world: World, c: ComponentId, settings: WaterPhysicsSettings,
                          allBodies: bool, bodyName: Name): BodyMap
  {
    if Registrable(world, c) then
      WithBodiesAdded(bodies, c, RegisteredNames(world.components[c], allBodies, bodyName), settings)
    else bodies
  }

  /** Every component given the same settings. */
  function ConstantSettings(settings: WaterPhysicsSettings): ComponentId -> WaterPhysicsSettings {
    c => settings
  }

  function AcceptAll(c: ComponentId): bool {
    true
  }

  /** AddComponentToWaterPhysics (with all bodies) for each component of `cs` that `accept`
      lets through, with the settings `settingsOf` gives it, in order. */
  function ComponentsAdded(bodies: BodyMap, world: World, cs: seq<ComponentId>, accept: ComponentId -> bool,
                           settingsOf: ComponentId -> WaterPhysicsSettings): BodyMap
  {
    if |cs| == 0 then bodies
    else
      var before := ComponentsAdded(bodies, world, cs[..|cs| - 1], accept, settingsOf);
      var c := cs[|cs| - 1];
      if accept(c) then ComponentAdded(before, world, c, settingsOf(c), true, NameNone) else before
  }

  /** After the components are added, each accepted registrable one has its NAME_None body and
      every body name it reports registered with the settings given for it. */
  lemma {:induction false} ComponentsAddedRegisters(bodies: BodyMap, world: World, cs: seq<ComponentId>, accept: ComponentId -> bool,
                                                    settingsOf: ComponentId -> WaterPhysicsSettings, c: ComponentId, n: Name)
    requires c in cs && accept(c) && Registrable(world, c) && (n == NameNone || n in world.components[c].bodyNames)
    ensures var found := FindComponentBody(ComponentsAdded(bodies, world, cs, accept, settingsOf), c, n);
      found.Some? && found.value.settings == settingsOf(c)
    decreases |cs|
  {
    var prefix, last := cs[..|cs| - 1], cs[|cs| - 1];
    var before := ComponentsAdded(bodies, world, prefix, accept, settingsOf);
    if c == last {
      var names := RegisteredNames(world.components[c], true, NameNone);
      var k :| 0 <= k < |names| && names[k] == n;
      WithBodiesAddedRegisters(before, c, names, settingsOf(c), k);
    } else {
      assert c in prefix by {
        var k :| 0 <= k < |cs| && cs[k] == c;
        assert k < |prefix| && prefix[k] == c;
      }
      ComponentsAddedRegisters(bodies, world, prefix, accept, settingsOf, c, n);
      if accept(last) && Registrable(world, last) {
        WithBodiesAddedLeavesOthers(before, last, RegisteredNames(world.components[last], true, NameNone), settingsOf(last), c, n);
      }
    }
  }

  /** The entry of every component that is not an accepted registrable one of `cs` is left as
      it was. */
  lemma {:induction false} ComponentsAddedLeavesOthers(bodies: BodyMap, world: World, cs: seq<ComponentId>, accept: ComponentId -> bool,
                                                       settingsOf: ComponentId -> WaterPhysicsSettings, c: ComponentId)
    requires c !in cs || !accept(c) || !Registrable(world, c)
    ensures var r := ComponentsAdded(bodies, world, cs, accept, settingsOf);
      (c in r <==> c in bodies) && (c in r ==> r[c] == bodies[c])
    decreases |cs|
  {
    if |cs| > 0 {
      var prefix := cs[..|cs| - 1];
      assert c in prefix ==> c in cs by {
        if c in prefix {
          var k :| 0 <= k < |prefix| && prefix[k] == c;
          assert cs[k] == c;
        }
      }
      ComponentsAddedLeavesOthers(bodies, world, prefix, accept, settingsOf, c);
    }
  }

  /** FWaterPhysicsActingForces::operator+=: every vector added componentwise. */
  function AddActingForces(a: ActingForces, b: ActingForces): ActingForces {
    ActingForces(
      Add(a.buoyancyForce, b.buoyancyForce), Add(a.buoyancyTorque, b.buoyancyTorque),
      Add(a.viscousFluidResistanceForce, b.viscousFluidResistanceForce),
      Add(a.viscousFluidResistanceTorque, b.viscousFluidResistanceTorque),
      Add(a.pressureDragForce, b.pressureDragForce), Add(a.pressureDragTorque, b.pressureDragTorque),
      Add(a.slammingForce, b.slammingForce), Add(a.slammingTorque, b.slammingTorque))
  }

  /** The forces acting on all the bodies, summed in order from zero. */
  function TotalActingForces(list: seq<WaterPhysicsBody>): ActingForces {
    if |list| == 0 then ZeroActingForces
    else AddActingForces(TotalActingForces(list[..|list| - 1]), list[|list| - 1].actingForces)
  }

  /** The submerged areas of all the bodies, summed in order from zero. */
  function TotalSubmergedArea(list: seq<WaterPhysicsBody>): real {
    if |list| == 0 then 0.0
    else TotalSubmergedArea(list[..|list| - 1]) + list[|list| - 1].submergedArea
  }

  lemma AddActingForcesAssociative(a: ActingForces, b: ActingForces, c: ActingForces)
    ensures AddActingForces(AddActingForces(a, b), c) == AddActingForces(a, AddActingForces(b, c))
  {
  }

  /** Summing the bodies of two lists in one pass is the sum of the two per-list sums, so the
      component total does not depend on how its bodies are grouped. */
  lemma {:induction false} TotalsConcat(l1: seq<WaterPhysicsBody>, l2: seq<WaterPhysicsBody>)
    ensures TotalSubmergedArea(l1 + l2) == TotalSubmergedArea(l1) + TotalSubmergedArea(l2)
    ensures TotalActingForces(l1 + l2) == AddActingForces(TotalActingForces(l1), TotalActingForces(l2))
    decreases |l2|
  {
    if |l2| == 0 {
      assert l1 + l2 == l1;
    } else {
      var prefix, last := l2[..|l2| - 1], l2[|l2| - 1];
      assert (l1 + l2)[..|l1 + l2| - 1] == l1 + prefix && (l1 + l2)[|l1 + l2| - 1] == last;
      TotalsConcat(l1, prefix);
      AddActingForcesAssociative(TotalActingForces(l1), TotalActingForces(prefix), last.actingForces);
    }
  }

  /** A component with one body reports exactly that body's forces and area. */
  lemma TotalsOfOne(b: WaterPhysicsBody)
    ensures TotalSubmergedArea([b]) == b.submergedArea
    ensures TotalActingForces([b]) == b.actingForces
  {
    assert [b][..0] == [];
  }

  /** With non-negative areas (as the step computes them), no body's area exceeds its
      component's total. */
  lemma {:induction false} BodyAreaAtMostTotal(list: seq<WaterPhysicsBody>, k: nat)
    requires k < |list|
    requires forall j :: 0 <= j < |list| ==> list[j].submergedArea >= 0.0
    ensures 0.0 <= list[k].submergedArea <= TotalSubmergedArea(list)
    decreases |list|
  {
    var prefix := list[..|list| - 1];
    TotalNonNegative(prefix);
    if k < |list| - 1 {
      BodyAreaAtMostTotal(prefix, k);
    }
  }

  lemma {:induction false} TotalNonNegative(list: seq<WaterPhysicsBody>)
    requires forall j :: 0 <= j < |list| ==> list[j].submergedArea >= 0.0
    ensures TotalSubmergedArea(list) >= 0.0
    decreases |list|
  {
    if |list| > 0 {
      TotalNonNegative(list[..|list| - 1]);
    }
  }

  /** Every body of the list with its settings replaced. */
  function WithSettings(list: seq<WaterPhysicsBody>, settings: WaterPhysicsSettings): (r: seq<WaterPhysicsBody>)
    ensures |r| == |list|
  {
    seq(|list|, i requires 0 <= i < |list| => list[i].(settings := settings))
  }

  /** The body of that name, if the component has one, with its settings replaced. */
  function WithBodySettings(bodies: BodyMap, c: ComponentId, name: Name, settings: WaterPhysicsSettings): BodyMap {
    if c !in bodies then bodies
    else match FindBodyIndex(bodies[c], name)
      case None => bodies
      case Some(k) => bodies[c := bodies[c][k := bodies[c][k].(settings := settings)]]
  }

  /** After the all-bodies settings overwrite, every body the component had is found with the
      new settings; names, buffers, forces and areas are as they were, and so is every other
      component. */
  lemma WithSettingsFinds(bodies: BodyMap, c: ComponentId, settings: WaterPhysicsSettings, c': ComponentId, n': Name)
    requires c in bodies
    ensures var r := bodies[c := WithSettings(bodies[c], settings)];
      var before := FindComponentBody(bodies, c', n');
      var after := FindComponentBody(r, c', n');
      if c' == c then before.Some? == after.Some? && (after.Some? ==> after.value == before.value.(settings := settings))
      else after == before
  {
    var list := bodies[c];
    var l' := WithSettings(list, settings);
    assert forall j :: 0 <= j < |list| ==> l'[j].bodyName == list[j].bodyName;
    match FindBodyIndex(list, n')
    case None =>
    case Some(i) =>
      FindBodyIndexOfFirst(l', i);
  }

  /** After the one-body settings overwrite, that body is found with the new settings and every
      other lookup is unchanged; an unregistered body leaves the registry as it was. */
  lemma WithBodySettingsFinds(bodies: BodyMap, c: ComponentId, name: Name, settings: WaterPhysicsSettings, c': ComponentId, n': Name)
    ensures var before := FindComponentBody(bodies, c', n');
      var after := FindComponentBody(WithBodySettings(bodies, c, name, settings), c', n');
      if c' == c && n' == name then before.Some? == after.Some? && (after.Some? ==> after.value == before.value.(settings := settings))
      else after == before
    ensures FindComponentBody(bodies, c, name).None? ==> WithBodySettings(bodies, c, name, settings) == bodies
  {
    if c in bodies {
      match FindBodyIndex(bodies[c], name)
      case None =>
      case Some(k) =>
        FindBodyIndexUpdate(bodies[c], k, bodies[c][k].(settings := settings), n');
    }
  }

  /** Replacing settings keeps body names, so it keeps them unique. */
  lemma SettingsKeepNamesUnique(bodies: BodyMap, c: ComponentId, list: seq<WaterPhysicsBody>)
    requires NamesUnique(bodies) && c in bodies && |list| == |bodies[c]|
    requires forall j :: 0 <= j < |list| ==> list[j].bodyName == bodies[c][j].bodyName
    ensures NamesUnique(bodies[c := list])
  {
    var r: BodyMap := bodies[c := list];
    forall c', i, j | c' in r && 0 <= i < j < |r[c']|
      ensures r[c'][i].bodyName != r[c'][j].bodyName
    {
      if c' == c {
        assert bodies[c][i].bodyName != bodies[c][j].bodyName;
      }
    }
  }

  /** Does any of the components `cs` have an entry in the registry? */
  predicate AnyRegistered(bodies: BodyMap, cs: seq<ComponentId>) {
    exists k :: 0 <= k < |cs| && cs[k] in bodies
  }

  function Elements<T>(s: seq<T>): set<T> {
    set x | x in s
  }

  /** UWaterPhysicsSceneComponent: the water-physics scene it owns. The water-info getter,
      surface provider and tick delegates are not part of this model. */
  class WaterPhysicsSceneComponent {
    const scene: WaterPhysicsScene

    ghost predicate Valid()
      reads this, scene
    {
      scene.Valid()
    }

    constructor()
      ensures Valid() && fresh(scene) && scene.bodies == map[] && scene.currentBufferIndex == 0
    {
      scene := new WaterPhysicsScene();
    }

    /** EndPlay: the scene is cleared. */
    method EndPlay()
      requires Valid()
      modifies scene
      ensures Valid() && scene.bodies == map[] && scene.currentBufferIndex == old(scene.currentBufferIndex)
    {
      scene.ClearWaterPhysicsScene();
    }

    /** AddComponentToWaterPhysics: nothing for an invalid component or one that is neither a
        primitive nor a collision-interface implementer; otherwise one AddComponentBody per
        registered name. */
    method AddComponentToWaterPhysics(world: World, c: ComponentId, settings: WaterPhysicsSettings,
                                      allBodies: bool, bodyName: Name)
      requires Valid()
      modifies scene
      ensures Valid() && scene.currentBufferIndex == old(scene.currentBufferIndex)
      ensures scene.bodies == ComponentAdded(old(scene.bodies), world, c, settings, allBodies, bodyName)
    {
      if !world.ComponentValid(c) {
        return;
      }
      var implementsInterface := world.components[c].implementsCollisionInterface;
      var primitive := PrimitiveComponentClass in world.components[c].classes;
      if !implementsInterface && !primitive {
        return;
      }
      var sockets := RegisteredNames(world.components[c], allBodies, bodyName);
      AddComponentBodies(c, sockets, settings);
    }

    /** The loop of AddComponentToWaterPhysics: one AddComponentBody per name, in order. */
    method AddComponentBodies(c: ComponentId, names: seq<Name>, settings: WaterPhysicsSettings)
      requires Valid()
      modifies scene
      ensures Valid() && scene.currentBufferIndex == old(scene.currentBufferIndex)
      ensures scene.bodies == WithBodiesAdded(old(scene.bodies), c, names, settings)
    {
      var i := 0;
      while i < |names|
        invariant 0 <= i <= |names|
        invariant scene.Valid() && scene.currentBufferIndex == old(scene.currentBufferIndex)
        invariant scene.bodies == WithBodiesAdded(old(scene.bodies), c, names[..i], settings)
      {
        assert names[..i + 1][..i] == names[..i];
        var _ := scene.AddComponentBody(c, names[i], settings);
        i := i + 1;
      }
      assert names[..i] == names;
    }

    /** RemoveComponentFromWaterPhysics: every body of the component, or only the named one. */
    method RemoveComponentFromWaterPhysics(c: ComponentId, allBodies: bool, bodyName: Name) returns (removed: bool)
      requires Valid()
      modifies scene
      ensures Valid() && scene.currentBufferIndex == old(scene.currentBufferIndex)
      ensures allBodies ==> removed == (c in old(scene.bodies)) && scene.bodies == old(scene.bodies) - {c}
      ensures !allBodies ==> removed == FindComponentBody(old(scene.bodies), c, bodyName).Some?
      ensures !allBodies ==> scene.bodies == WithBodyRemoved(old(scene.bodies), c, bodyName)
    {
      if allBodies {
        removed := scene.RemoveComponent(c);
      } else {
        removed := scene.RemoveComponentBody(c, bodyName);
      }
    }

    /** AddActorToWaterPhysics: nothing for an invalid actor; otherwise each of its components
        is added with all of its bodies. */
    method AddActorToWaterPhysics(world: World, a: ActorId, settings: WaterPhysicsSettings)
      requires Valid()
      modifies scene
      ensures Valid() && scene.currentBufferIndex == old(scene.currentBufferIndex)
      ensures scene.bodies == if world.ActorValid(a) then ComponentsAdded(old(scene.bodies), world, world.ComponentsOf(a), AcceptAll, ConstantSettings(settings))
                              else old(scene.bodies)
    {
      if !world.ActorValid(a) {
        return;
      }
      var cs := world.ComponentsOf(a);
      var i := 0;
      while i < |cs|
        invariant 0 <= i <= |cs|
        invariant Valid() && scene.currentBufferIndex == old(scene.currentBufferIndex)
        invariant scene.bodies == ComponentsAdded(old(scene.bodies), world, cs[..i], AcceptAll, ConstantSettings(settings))
      {
        assert cs[..i + 1][..i] == cs[..i];
        var c := cs[i];
        if world.ComponentValid(c) && world.components[c].implementsCollisionInterface {
          AddComponentToWaterPhysics(world, c, settings, true, NameNone);
        } else if world.IsA(c, PrimitiveComponentClass) {
          AddComponentToWaterPhysics(world, c, settings, true, NameNone);
        }
        i := i + 1;
      }
      assert cs[..i] == cs;
    }

    /** RemoveActorFromWaterPhysics: false for an invalid actor; otherwise every component of
        the actor is unregistered, and the result says whether any of them was registered. */
    method RemoveActorFromWaterPhysics(world: World, a: ActorId) returns (removed: bool)
      requires Valid()
      modifies scene
      ensures Valid() && scene.currentBufferIndex == old(scene.currentBufferIndex)
      ensures !world.ActorValid(a) ==> !removed && scene.bodies == old(scene.bodies)
      ensures world.ActorValid(a) ==> removed == AnyRegistered(old(scene.bodies), world.ComponentsOf(a))
      ensures world.ActorValid(a) ==> scene.bodies == old(scene.bodies) - Elements(world.ComponentsOf(a))
    {
      if !world.ActorValid(a) {
        return false;
      }
      var cs := world.ComponentsOf(a);
      removed := false;
      var i := 0;
      while i < |cs|
        invariant 0 <= i <= |cs|
        invariant Valid() && scene.currentBufferIndex == old(scene.currentBufferIndex)
        invariant scene.bodies == old(scene.bodies) - Elements(cs[..i])
        invariant removed == AnyRegistered(old(scene.bodies), cs[..i])
      {
        assert Elements(cs[..i + 1]) == Elements(cs[..i]) + {cs[i]} by {
          assert cs[..i + 1] == cs[..i] + [cs[i]];
        }
        ghost var prefix := cs[..i + 1];
        assert prefix[..i] == cs[..i] && prefix[i] == cs[i];
        var r := RemoveComponentFromWaterPhysics(cs[i], true, NameNone);
        if cs[i] in cs[..i] && cs[i] in old(scene.bodies) {
          assert AnyRegistered(old(scene.bodies), cs[..i]);
        }
        removed := removed || r;
        i := i + 1;
      }
      assert cs[..i] == cs;
    }

    /** AddActorsToWaterPhysics: AddActorToWaterPhysics for each actor in turn. */
    method AddActorsToWaterPhysics(world: World, actors: seq<ActorId>, settings: WaterPhysicsSettings)
      requires Valid()
      modifies scene
      ensures Valid() && scene.currentBufferIndex == old(scene.currentBufferIndex)
      ensures scene.bodies == ActorsAdded(old(scene.bodies), world, actors, settings)
    {
      var i := 0;
      while i < |actors|
        invariant 0 <= i <= |actors|
        invariant Valid() && scene.currentBufferIndex == old(scene.currentBufferIndex)
        invariant scene.bodies == ActorsAdded(old(scene.bodies), world, actors[..i], settings)
      {
        assert actors[..i + 1][..i] == actors[..i];
        AddActorToWaterPhysics(world, actors[i], settings);
        i := i + 1;
      }
      assert actors[..i] == actors;
    }

    /** RemoveActorsFromWaterPhysics: every component of every valid actor is unregistered; the
        result is true iff some removal was. */
    method RemoveActorsFromWaterPhysics(world: World, actors: seq<ActorId>) returns (removed: bool)
      requires Valid()
      modifies scene
      ensures Valid() && scene.currentBufferIndex == old(scene.currentBufferIndex)
      ensures scene.bodies == old(scene.bodies) - ComponentsOfValidActors(world, actors)
      ensures removed <==> exists c :: c in ComponentsOfValidActors(world, actors) && c in old(scene.bodies)
    {
      removed := false;
      var i := 0;
      while i < |actors|
        invariant 0 <= i <= |actors|
        invariant Valid() && scene.currentBufferIndex == old(scene.currentBufferIndex)
        invariant scene.bodies == old(scene.bodies) - ComponentsOfValidActors(world, actors[..i])
        invariant removed <==> exists c :: c in ComponentsOfValidActors(world, actors[..i]) && c in old(scene.bodies)
      {
        assert actors[..i + 1][..i] == actors[..i];
        ghost var done := ComponentsOfValidActors(world, actors[..i]);
        var r := RemoveActorFromWaterPhysics(world, actors[i]);
        if r {
          ghost var k :| 0 <= k < |world.ComponentsOf(actors[i])| && world.ComponentsOf(actors[i])[k] in old(scene.bodies) - done;
          assert world.ComponentsOf(actors[i])[k] in ComponentsOfValidActors(world, actors[..i + 1]);
        }
        removed := removed || r;
        i := i + 1;
      }
      assert actors[..i] == actors;
    }

    /** SetComponentWaterPhysicsSettings: nothing for an invalid or unregistered component (or,
        without bAllBodies, an unregistered body); otherwise the settings of every body of the
        component, or of the named body only, are replaced. */
    method SetComponentWaterPhysicsSettings(world: World, c: ComponentId, settings: WaterPhysicsSettings,
                                            allBodies: bool, bodyName: Name)
      requires Valid()
      modifies scene
      ensures Valid() && scene.currentBufferIndex == old(scene.currentBufferIndex)
      ensures !world.ComponentValid(c) || (allBodies && c !in old(scene.bodies)) ==> scene.bodies == old(scene.bodies)
      ensures world.ComponentValid(c) && allBodies && c in old(scene.bodies) ==>
        scene.bodies == old(scene.bodies)[c := WithSettings(old(scene.bodies)[c], settings)]
      ensures world.ComponentValid(c) && !allBodies ==>
        scene.bodies == WithBodySettings(old(scene.bodies), c, bodyName, settings)
    {
      if !world.ComponentValid(c) {
        return;
      }
      if allBodies {
        if c !in scene.bodies {
          return;
        }
        SetAllBodySettings(c, settings);
      } else {
        if c !in scene.bodies {
          return;
        }
        var found := FindBodyIndex(scene.bodies[c], bodyName);
        if found.None? {
          return;
        }
        var list := scene.bodies[c];
        var k := found.value;
        SettingsKeepNamesUnique(scene.bodies, c, list[k := list[k].(settings := settings)]);
        scene.bodies := scene.bodies[c := list[k := list[k].(settings := settings)]];
      }
    }

    /** The loop over the component's bodies that overwrites each body's settings. */
    method SetAllBodySettings(c: ComponentId, settings: WaterPhysicsSettings)
      requires Valid() && c in scene.bodies
      modifies scene
      ensures Valid() && scene.currentBufferIndex == old(scene.currentBufferIndex)
      ensures scene.bodies == old(scene.bodies)[c := WithSettings(old(scene.bodies)[c], settings)]
    {
      var list := scene.bodies[c];
      var i := 0;
      while i < |list|
        invariant 0 <= i <= |list| == |old(scene.bodies)[c]|
        invariant Valid() && scene.currentBufferIndex == old(scene.currentBufferIndex)
        invariant scene.bodies == old(scene.bodies)[c := list]
        invariant forall j :: 0 <= j < i ==> list[j] == old(scene.bodies)[c][j].(settings := settings)
        invariant forall j :: i <= j < |list| ==> list[j] == old(scene.bodies)[c][j]
      {
        SettingsKeepNamesUnique(scene.bodies, c, list[i := list[i].(settings := settings)]);
        list := list[i := list[i].(settings := settings)];
        scene.bodies := scene.bodies[c := list];
        i := i + 1;
      }
      assert list == WithSettings(old(scene.bodies)[c], settings);
    }

    /** ContainsComponent: the component has an entry (possibly with no bodies left). */
    method ContainsComponent(c: ComponentId) returns (r: bool)
      requires Valid()
      ensures r == (c in scene.bodies)
    {
      r := c in scene.bodies;
    }

    /** ContainsComponentBody: a body of that name is registered for the component. */
    method ContainsComponentBody(c: ComponentId, name: Name) returns (r: bool)
      requires Valid()
      ensures r <==> c in scene.bodies && exists k :: 0 <= k < |scene.bodies[c]| && scene.bodies[c][k].bodyName == name
      ensures r ==> c in scene.bodies
    {
      r := FindComponentBody(scene.bodies, c, name).Some?;
    }

    /** GetComponentActingWaterPhysicsForces: the sum over the component's bodies, zero for an
        unregistered component. */
    method GetComponentActingWaterPhysicsForces(c: ComponentId) returns (r: ActingForces)
      requires Valid()
      ensures c !in scene.bodies ==> r == ZeroActingForces
      ensures c in scene.bodies ==> r == TotalActingForces(scene.bodies[c])
    {
      r := ZeroActingForces;
      if c in scene.bodies {
        var list := scene.bodies[c];
        var i := 0;
        while i < |list|
          invariant 0 <= i <= |list|
          invariant r == TotalActingForces(list[..i])
        {
          assert list[..i + 1][..i] == list[..i];
          r := AddActingForces(r, list[i].actingForces);
          i := i + 1;
        }
        assert list[..i] == list;
      }
    }

    /** GetComponentBodyActingWaterPhysicsForces: the named body's forces, zero if it is not
        registered. */
    method GetComponentBodyActingWaterPhysicsForces(c: ComponentId, name: Name) returns (r: ActingForces)
      requires Valid()
      ensures FindComponentBody(scene.bodies, c, name).None? ==> r == ZeroActingForces
      ensures FindComponentBody(scene.bodies, c, name).Some? ==>
        exists k :: 0 <= k < |scene.bodies[c]| && scene.bodies[c][k].bodyName == name && r == scene.bodies[c][k].actingForces
    {
      var found := FindComponentBody(scene.bodies, c, name);
      if found.Some? {
        return found.value.actingForces;
      }
      return ZeroActingForces;
    }

    /** GetComponentSubmergedArea: the sum over the component's bodies, zero for an
        unregistered component. */
    method GetComponentSubmergedArea(c: ComponentId) returns (r: real)
      requires Valid()
      ensures c !in scene.bodies ==> r == 0.0
      ensures c in scene.bodies ==> r == TotalSubmergedArea(scene.bodies[c])
    {
      r := 0.0;
      if c in scene.bodies {
        var list := scene.bodies[c];
        var i := 0;
        while i < |list|
          invariant 0 <= i <= |list|
          invariant r == TotalSubmergedArea(list[..i])
        {
          assert list[..i + 1][..i] == list[..i];
          r := r + list[i].submergedArea;
          i := i + 1;
        }
        assert list[..i] == list;
      }
    }

    /** GetComponentBodySubmergedArea: the named body's area, zero if it is not registered. */
    method GetComponentBodySubmergedArea(c: ComponentId, name: Name) returns (r: real)
      requires Valid()
      ensures FindComponentBody(scene.bodies, c, name).None? ==> r == 0.0
      ensures FindComponentBody(scene.bodies, c, name).Some? ==>
        exists k :: 0 <= k < |scene.bodies[c]| && scene.bodies[c][k].bodyName == name && r == scene.bodies[c][k].submergedArea
    {
      var found := FindComponentBody(scene.bodies, c, name);
      if found.Some? {
        return found.value.submergedArea;
      }
      return 0.0;
    }
  }

  /** AddActorsToWaterPhysics on values. */
  function ActorsAdded(bodies: BodyMap, world: World, actors: seq<ActorId>, settings: WaterPhysicsSettings): BodyMap {
    if |actors| == 0 then bodies
    else
      var before := ActorsAdded(bodies, world, actors[..|actors| - 1], settings);
      var a := actors[|actors| - 1];
      if world.ActorValid(a) then ComponentsAdded(before, world, world.ComponentsOf(a), AcceptAll, ConstantSettings(settings)) else before
  }

  /** Every component of every valid actor in the list. */
  function ComponentsOfValidActors(world: World, actors: seq<ActorId>): set<ComponentId> {
    if |actors| == 0 then {}
    else
      ComponentsOfValidActors(world, actors[..|actors| - 1]) +
      (if world.ActorValid(actors[|actors| - 1]) then Elements(world.ComponentsOf(actors[|actors| - 1])) else {})
  }
}
