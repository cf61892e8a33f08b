// AWaterPhysicsActor: the base of every water-physics simulation actor. It owns a scene
// component, admits actors through its filters, registers their components with the settings
// gathered from each actor's settings component, keeps actors that are about to leave in a
// pending-removal set that Tick counts down, and re-applies settings when they change.

module PhysicsActor {
  import opened Engine
  import opened WaterPhysicsTypes
  import opened PhysicsScene
  import opened ComponentFilters
  import opened SettingsComponent
  import opened SceneComponent

  /** The native and Blueprint notifications the actor raises. */
  datatype Notice = AddedToWater(actor: ActorId) | RemovedFromWater(actor: ActorId)

  /** ShouldComponentSimulateWaterPhysics: collision-interface implementers, and primitives
      whose mobility is Movable. */
  predicate ShouldComponentSimulateWaterPhysics(world: World, c: ComponentId) {
    c in world.components &&
    (world.components[c].implementsCollisionInterface ||
     (PrimitiveComponentClass in world.components[c].classes && world.components[c].mobility == Movable))
  }

  /** A valid component that should simulate is one the scene component accepts. */
  lemma SimulatingComponentsAreRegistrable(world: World, c: ComponentId)
    requires world.ComponentValid(c) && ShouldComponentSimulateWaterPhysics(world, c)
    ensures Registrable(world, c)
  {
  }

  /** A component the gathered lists keep out: blacklisted, or missing from a non-empty
      whitelist. */
  predicate Excluded(g: GatherResult, c: ComponentId) {
    c in g.blacklisted || (|g.whitelisted| > 0 && c !in g.whitelisted)
  }

  /** The settings a component is registered with: its gathered settings, or the defaults. */
  function SettingsOf(g: GatherResult): ComponentId -> WaterPhysicsSettings {
    (c: ComponentId) => if c in g.componentsSettings then g.componentsSettings[c] else NewSettings()
  }

  /** The components AddActorToWater hands to the scene component. */
  function AcceptFor(world: World, g: GatherResult): ComponentId -> bool {
    (c: ComponentId) => ShouldComponentSimulateWaterPhysics(world, c) && !Excluded(g, c)
  }

  /** After AddActorToWater, a valid component of the actor is registered (with its gathered
      settings, or the defaults) exactly when it should simulate and is not excluded by the
      lists; otherwise its entry is as it was. */
  lemma AddedActorComponent(bodies: BodyMap, world: World, cs: seq<ComponentId>, g: GatherResult, c: ComponentId)
    requires c in cs && world.ComponentValid(c)
    ensures var r := ComponentsAdded(bodies, world, cs, AcceptFor(world, g), SettingsOf(g));
      ShouldComponentSimulateWaterPhysics(world, c) && !Excluded(g, c) ==>
        FindComponentBody(r, c, NameNone).Some? && FindComponentBody(r, c, NameNone).value.settings == SettingsOf(g)(c)
    ensures var r := ComponentsAdded(bodies, world, cs, AcceptFor(world, g), SettingsOf(g));
      !(ShouldComponentSimulateWaterPhysics(world, c) && !Excluded(g, c)) ==>
        (c in r <==> c in bodies) && (c in r ==> r[c] == bodies[c])
  {
    if ShouldComponentSimulateWaterPhysics(world, c) && !Excluded(g, c) {
      ComponentsAddedRegisters(bodies, world, cs, AcceptFor(world, g), SettingsOf(g), c, NameNone);
    } else {
      ComponentsAddedLeavesOthers(bodies, world, cs, AcceptFor(world, g), SettingsOf(g), c);
    }
  }

  /** What NotifyWaterPhysicsSettingsChanged does to the registry for the components `cs` of
      the actor: a registered component now excluded is removed; any other registered one has
      the settings of all of its bodies replaced (when it is valid); unregistered ones are
      skipped. */
  function SettingsChanged(bodies: BodyMap, world: World, cs: seq<ComponentId>, g: GatherResult): BodyMap {
    if |cs| == 0 then bodies
    else SettingsChangedOne(SettingsChanged(bodies, world, cs[..|cs| - 1], g), world, cs[|cs| - 1], g)
  }

  /** The effect of a settings change on one component of the actor. */
  function SettingsChangedOne(bodies: BodyMap, world: World, c: ComponentId, g: GatherResult): BodyMap {
    if c !in bodies then bodies
    else if Excluded(g, c) then bodies - {c}
    else if world.ComponentValid(c) then bodies[c := WithSettings(bodies[c], SettingsOf(g)(c))]
    else bodies
  }

  lemma WithSettingsTwice(list: seq<WaterPhysicsBody>, s: WaterPhysicsSettings)
    ensures WithSettings(WithSettings(list, s), s) == WithSettings(list, s)
  {
  }

  /** A settings change never registers a component; it unregisters exactly the registered
      components of the actor that are now excluded, gives every other registered valid
      component of the actor its new settings on every body, and leaves the rest alone. */
  lemma {:induction false} SettingsChangedEffect(bodies: BodyMap, world: World, cs: seq<ComponentId>, g: GatherResult, c: ComponentId)
    ensures var r := SettingsChanged(bodies, world, cs, g);
      (c in r ==> c in bodies) &&
      (c in cs && Excluded(g, c) ==> c !in r) &&
      (c in cs && c in bodies && !Excluded(g, c) && world.ComponentValid(c) ==>
        c in r && r[c] == WithSettings(bodies[c], SettingsOf(g)(c))) &&
      (c in bodies && (c !in cs || (!Excluded(g, c) && !world.ComponentValid(c))) ==> c in r && r[c] == bodies[c])
    decreases |cs|
  {
    if |cs| > 0 {
      var prefix, last := cs[..|cs| - 1], cs[|cs| - 1];
      SettingsChangedEffect(bodies, world, prefix, g, c);
      assert c in cs <==> c in prefix || c == last by {
        assert cs == prefix + [last];
      }
      var before := SettingsChanged(bodies, world, prefix, g);
      if c == last && c in before && !Excluded(g, c) && world.ComponentValid(c) && c in prefix {
        WithSettingsTwice(bodies[c], SettingsOf(g)(c));
      }
    }
  }

  /** The pending removals as Tick leaves them: entries of actors that are gone are dropped,
      entries in `done` have been counted down by `deltaTime` and dropped once they reach
      zero, and the others are as they were. */
  function TickedPending(pending: map<ActorId, real>, world: World, deltaTime: real, done: set<ActorId>): map<ActorId, real> {
    map a | a in pending && (a !in done || (world.ActorValid(a) && pending[a] - deltaTime > 0.0)) ::
      if a in done then pending[a] - deltaTime else pending[a]
  }

  /** The actors whose pending removal falls due in this Tick. */
  predicate Due(pending: map<ActorId, real>, world: World, deltaTime: real, a: ActorId) {
    a in pending && world.ActorValid(a) && pending[a] - deltaTime <= 0.0
  }

  /** A full Tick keeps only live actors with time left, each counted down by exactly
      `deltaTime`; in particular a removal queued with delay 0 falls due on the next Tick with
      a non-negative step. */
  lemma TickCountsDown(pending: map<ActorId, real>, world: World, deltaTime: real, a: ActorId)
    ensures var r := TickedPending(pending, world, deltaTime, pending.Keys);
      (a in r <==> a in pending && world.ActorValid(a) && pending[a] - deltaTime > 0.0) &&
      (a in r ==> r[a] == pending[a] - deltaTime && r[a] > 0.0)
    ensures a in pending && pending[a] == 0.0 && deltaTime >= 0.0 && world.ActorValid(a) ==> Due(pending, world, deltaTime, a)
  {
  }

  /** The components of the actors in `done` that fell due. */
  function DueComponents(pending: map<ActorId, real>, world: World, deltaTime: real, done: set<ActorId>): set<ComponentId> {
    set a, c | a in done && Due(pending, world, deltaTime, a) && c in world.ComponentsOf(a) :: c
  }

  /** The settings components of the actors in `done` that fell due. */
  function SettingsSubscriptions(pending: map<ActorId, real>, world: World, deltaTime: real, done: set<ActorId>): set<ComponentId> {
    set a | a in done && Due(pending, world, deltaTime, a) && FirstSettingsComponent(world, world.ComponentsOf(a)).Some? ::
      FirstSettingsComponent(world, world.ComponentsOf(a)).value
  }

  /** Taking one more actor into account in Tick: its entry is dropped or counted down. */
  lemma TickedPendingStep(pending: map<ActorId, real>, world: World, deltaTime: real, done: set<ActorId>, a: ActorId)
    requires a in pending && a !in done
    ensures TickedPending(pending, world, deltaTime, done + {a}) ==
      if world.ActorValid(a) && pending[a] - deltaTime > 0.0 then TickedPending(pending, world, deltaTime, done)[a := pending[a] - deltaTime]
      else TickedPending(pending, world, deltaTime, done) - {a}
  {
  }

  /** Taking one more actor into account in Tick: its components are unregistered and its
      settings component forgotten exactly when it falls due. */
  lemma DueStep(pending: map<ActorId, real>, world: World, deltaTime: real, done: set<ActorId>, a: ActorId,
                 bodies: BodyMap, subscribed: set<ComponentId>)
    ensures bodies - DueComponents(pending, world, deltaTime, done + {a}) ==
      (bodies - DueComponents(pending, world, deltaTime, done)) - (if Due(pending, world, deltaTime, a) then Elements(world.ComponentsOf(a)) else {})
    ensures var first := FirstSettingsComponent(world, world.ComponentsOf(a));
      subscribed - SettingsSubscriptions(pending, world, deltaTime, done + {a}) ==
      (subscribed - SettingsSubscriptions(pending, world, deltaTime, done)) - (if Due(pending, world, deltaTime, a) && first.Some? then {first.value} else {})
  {
  }

  /** Every notice in `ns` is the removal of an actor that fell due. */
  predicate DueRemovals(pending: map<ActorId, real>, world: World, deltaTime: real, ns: seq<Notice>) {
    forall k :: 0 <= k < |ns| ==> ns[k].RemovedFromWater? && Due(pending, world, deltaTime, ns[k].actor)
  }

  /** The actors that fall due in this Tick while one of their components is registered:
      exactly the ones whose removal raises OnActorRemovedFromWater. */
  function DueRegistered(pending: map<ActorId, real>, world: World, deltaTime: real, bodies: BodyMap): set<ActorId> {
    set a | a in pending && Due(pending, world, deltaTime, a) && AnyRegistered(bodies, world.ComponentsOf(a))
  }

  /** No notice appears twice. */
  predicate NoRepeats(ns: seq<Notice>) {
    forall i, j :: 0 <= i < j < |ns| ==> ns[i] != ns[j]
  }

  /** Unregistering components can only end an actor's registration; with one owner per
      component, unregistering other actors' components leaves it as it was. */
  lemma RegisteredAfterDue(bodies: BodyMap, pending: map<ActorId, real>, world: World, deltaTime: real,
                           done: set<ActorId>, a: ActorId)
    ensures AnyRegistered(bodies - DueComponents(pending, world, deltaTime, done), world.ComponentsOf(a)) ==>
      AnyRegistered(bodies, world.ComponentsOf(a))
    ensures world.SingleOwners() && a !in done && AnyRegistered(bodies, world.ComponentsOf(a)) ==>
      AnyRegistered(bodies - DueComponents(pending, world, deltaTime, done), world.ComponentsOf(a))
  {
    var cs := world.ComponentsOf(a);
    if world.SingleOwners() && a !in done && AnyRegistered(bodies, cs) {
      var k :| 0 <= k < |cs| && cs[k] in bodies;
      if cs[k] in DueComponents(pending, world, deltaTime, done) {
        assert false;
      }
    }
  }

  /** What the Tick loop has raised after handling the actors of `done`: one removal notice
      per handled actor that fell due while registered, none twice, and (with one owner per
      component) none of those actors missed. */
  ghost predicate NoticesSoFar(pending: map<ActorId, real>, world: World, deltaTime: real, bodies: BodyMap,
                         done: set<ActorId>, added: seq<Notice>) {
    DueRemovals(pending, world, deltaTime, added) && NoRepeats(added) &&
    (forall k :: 0 <= k < |added| ==>
      added[k].actor in done && added[k].actor in DueRegistered(pending, world, deltaTime, bodies)) &&
    (world.SingleOwners() ==>
      forall b :: b in done && b in DueRegistered(pending, world, deltaTime, bodies) ==> RemovedFromWater(b) in added)
  }

  /** Handling one more actor keeps NoticesSoFar, given the notices its entry raises. */
  lemma NoticesStep(pending: map<ActorId, real>, world: World, deltaTime: real, bodies: BodyMap,
                    done: set<ActorId>, added: seq<Notice>, a: ActorId, raisedHere: seq<Notice>)
    requires NoticesSoFar(pending, world, deltaTime, bodies, done, added)
    requires a in pending && a !in done
    requires raisedHere ==
      if Due(pending, world, deltaTime, a) &&
         AnyRegistered(bodies - DueComponents(pending, world, deltaTime, done), world.ComponentsOf(a))
      then [RemovedFromWater(a)] else []
    ensures NoticesSoFar(pending, world, deltaTime, bodies, done + {a}, added + raisedHere)
  {
    RegisteredAfterDue(bodies, pending, world, deltaTime, done, a);
    var next := added + raisedHere;
    forall k | 0 <= k < |next|
      ensures next[k].actor in done + {a}
    {
      if k < |added| { assert next[k] == added[k]; }
    }
  }

  /** Once every pending actor is handled, the notices raised are exactly one per actor that
      fell due while registered (the covering half needing one owner per component). */
  lemma AllNotices(pending: map<ActorId, real>, world: World, deltaTime: real, bodies: BodyMap, added: seq<Notice>)
    requires NoticesSoFar(pending, world, deltaTime, bodies, pending.Keys, added)
    ensures DueRemovals(pending, world, deltaTime, added) && NoRepeats(added)
    ensures forall k :: 0 <= k < |added| ==> added[k].actor in DueRegistered(pending, world, deltaTime, bodies)
    ensures world.SingleOwners() ==>
      forall a :: a in DueRegistered(pending, world, deltaTime, bodies) ==> RemovedFromWater(a) in added
    ensures world.SingleOwners() ==> |added| == |DueRegistered(pending, world, deltaTime, bodies)|
  {
    if world.SingleOwners() {
      NoRepeatsCount(added, DueRegistered(pending, world, deltaTime, bodies));
    }
  }

  /** Removal notices without repeats, all for actors of `due` and covering it, number exactly
      as many as the actors of `due`. */
  lemma {:induction false} NoRepeatsCount(ns: seq<Notice>, due: set<ActorId>)
    requires NoRepeats(ns)
    requires forall k :: 0 <= k < |ns| ==> ns[k].RemovedFromWater? && ns[k].actor in due
    requires forall a :: a in due ==> RemovedFromWater(a) in ns
    ensures |ns| == |due|
    decreases |ns|
  {
    if |ns| > 0 {
      var front, last := ns[..|ns| - 1], ns[|ns| - 1];
      forall a | a in due - {last.actor}
        ensures RemovedFromWater(a) in front
      {
        assert ns == front + [last];
      }
      NoRepeatsCount(front, due - {last.actor});
    }
  }

  /** The settings of an actor's first settings component are known to the model. */
  predicate SettingsKnown(world: World, settingsData: map<ComponentId, WaterPhysicsSettingsComponent>, a: ActorId) {
    var first := FirstSettingsComponent(world, world.ComponentsOf(a));
    first.Some? ==> first.value in settingsData
  }

  /** An actor the filters let into the simulation (FilterActorFromWaterPhysics is false). */
  predicate Admitted(world: World, a: ActorId, filters: seq<WaterPhysicsFilter>, blueprintFilter: ActorId -> bool) {
    world.ActorValid(a) && !blueprintFilter(a) && !(|filters| != 0 && !FilterListHolds(world, a, filters))
  }

  /** The part of an AWaterPhysicsActor that AddActorToWater and RemoveActorFromWater change:
      the scene's registry, the pending removals, the settings subscriptions and the notices. */
  datatype ActorState = ActorState(bodies: BodyMap, actorsToRemove: map<ActorId, real>,
                                   subscriptions: set<ComponentId>, notices: seq<Notice>)

  /** The state after AddActorToWater. */
  function AfterAdd(s: ActorState, world: World, a: ActorId, filters: seq<WaterPhysicsFilter>,
                    settingsData: map<ComponentId, WaterPhysicsSettingsComponent>, excludeClasses: seq<ClassId>,
                    blueprintFilter: ActorId -> bool): ActorState
    requires SettingsKnown(world, settingsData, a)
  {
    if !Admitted(world, a, filters, blueprintFilter) then s
    else if a in s.actorsToRemove then s.(actorsToRemove := s.actorsToRemove - {a})
    else
      var g := Gathered(world, a, settingsData, excludeClasses);
      ActorState(ComponentsAdded(s.bodies, world, world.ComponentsOf(a), AcceptFor(world, g), SettingsOf(g)),
                 s.actorsToRemove,
                 s.subscriptions + (if g.settingsComponent.Some? then {g.settingsComponent.value} else {}),
                 s.notices + [AddedToWater(a)])
  }

  /** The state after RemoveActorFromWater with a negative delay, for a valid actor. */
  function RemovedNow(s: ActorState, world: World, a: ActorId): ActorState {
    var first := FirstSettingsComponent(world, world.ComponentsOf(a));
    ActorState(s.bodies - Elements(world.ComponentsOf(a)),
               s.actorsToRemove,
               s.subscriptions - (if first.Some? then {first.value} else {}),
               s.notices + (if AnyRegistered(s.bodies, world.ComponentsOf(a)) then [RemovedFromWater(a)] else []))
  }

  /** The state after RemoveActorFromWater. */
  function AfterRemove(s: ActorState, world: World, a: ActorId, removeDelay: real): ActorState {
    if !world.ActorValid(a) then s
    else if removeDelay < 0.0 then RemovedNow(s, world, a)
    else s.(actorsToRemove := s.actorsToRemove[a := removeDelay])
  }

  /** Adding an admitted actor that is not pending removal registers each of its valid
      components exactly when that component should simulate and is not excluded, and
      leaves the entries of its other components as they were. */
  lemma AddRegistersSelectedComponents(s: ActorState, world: World, a: ActorId, filters: seq<WaterPhysicsFilter>,
                                       settingsData: map<ComponentId, WaterPhysicsSettingsComponent>, excludeClasses: seq<ClassId>,
                                       blueprintFilter: ActorId -> bool, c: ComponentId)
    requires SettingsKnown(world, settingsData, a) && Admitted(world, a, filters, blueprintFilter) && a !in s.actorsToRemove
    requires c in world.ComponentsOf(a) && world.ComponentValid(c)
    ensures var r := AfterAdd(s, world, a, filters, settingsData, excludeClasses, blueprintFilter).bodies;
      var g := Gathered(world, a, settingsData, excludeClasses);
      ShouldComponentSimulateWaterPhysics(world, c) && !Excluded(g, c) ==>
        FindComponentBody(r, c, NameNone).Some? && FindComponentBody(r, c, NameNone).value.settings == SettingsOf(g)(c)
    ensures var r := AfterAdd(s, world, a, filters, settingsData, excludeClasses, blueprintFilter).bodies;
      var g := Gathered(world, a, settingsData, excludeClasses);
      !(ShouldComponentSimulateWaterPhysics(world, c) && !Excluded(g, c)) ==>
        (c in r <==> c in s.bodies) && (c in r ==> r[c] == s.bodies[c])
  {
    AddedActorComponent(s.bodies, world, world.ComponentsOf(a), Gathered(world, a, settingsData, excludeClasses), c);
  }

  /** A removal queued with a delay of zero or more and an add before it falls due cancel
      out: the actor's components stay registered and nothing is raised. */
  lemma DelayedRemoveThenAddCancels(s: ActorState, world: World, a: ActorId, removeDelay: real, filters: seq<WaterPhysicsFilter>,
                                    settingsData: map<ComponentId, WaterPhysicsSettingsComponent>, excludeClasses: seq<ClassId>,
                                    blueprintFilter: ActorId -> bool)
    requires SettingsKnown(world, settingsData, a) && Admitted(world, a, filters, blueprintFilter)
    requires removeDelay >= 0.0 && a !in s.actorsToRemove
    ensures AfterAdd(AfterRemove(s, world, a, removeDelay), world, a, filters, settingsData, excludeClasses, blueprintFilter) == s
  {
    assert s.actorsToRemove[a := removeDelay] - {a} == s.actorsToRemove;
  }

  /** An immediate removal after an add unregisters every component of the actor, whatever
      the add registered. */
  lemma AddThenRemoveNowUnregisters(s: ActorState, world: World, a: ActorId, filters: seq<WaterPhysicsFilter>,
                                    settingsData: map<ComponentId, WaterPhysicsSettingsComponent>, excludeClasses: seq<ClassId>,
                                    blueprintFilter: ActorId -> bool, c: ComponentId)
    requires SettingsKnown(world, settingsData, a) && world.ActorValid(a) && c in world.ComponentsOf(a)
    ensures c !in AfterRemove(AfterAdd(s, world, a, filters, settingsData, excludeClasses, blueprintFilter), world, a, -1.0).bodies
  {
  }

  /** AWaterPhysicsActor. Editor-only component re-validation is not part of this model. */
  class WaterPhysicsActor {
    const sceneComponent: WaterPhysicsSceneComponent
    /** ActorsToRemove: at most one entry per actor, with the time left before removal. */
    var actorsToRemove: map<ActorId, real>
    /** WaterPhysicsFilter. */
    var filters: seq<WaterPhysicsFilter>
    /** The settings components whose OnWaterPhysicsSettingsChanged is bound to this actor. */
    var subscriptions: set<ComponentId>
    /** OnActorAddedToWater / OnActorRemovedFromWater, in the order they were raised. */
    var notices: seq<Notice>

    ghost predicate Valid()
      reads this, sceneComponent, sceneComponent.scene
    {
      sceneComponent.Valid()
    }

    function State(): ActorState
      reads this, sceneComponent.scene
    {
      ActorState(sceneComponent.scene.bodies, actorsToRemove, subscriptions, notices)
    }

    constructor()
      ensures Valid() && fresh(sceneComponent) && fresh(sceneComponent.scene)
      ensures sceneComponent.scene.bodies == map[]
      ensures actorsToRemove == map[] && filters == [] && subscriptions == {} && notices == []
    {
      sceneComponent := new WaterPhysicsSceneComponent();
      actorsToRemove := map[];
      filters := [];
      subscriptions := {};
      notices := [];
    }

    /** FilterActorFromWaterPhysics: the Blueprint override (`blueprintFilter`) may reject the
        actor; otherwise a non-empty filter list must hold for it. */
    method FilterActorFromWaterPhysics(world: World, a: ActorId, blueprintFilter: ActorId -> bool) returns (r: bool)
      requires world.ActorValid(a)
      ensures r <==> blueprintFilter(a) || (|filters| != 0 && !FilterListHolds(world, a, filters))
    {
      if blueprintFilter(a) {
        return true;
      }
      if |filters| == 0 {
        return false;
      }
      var holds := ProcessFilterList(world, a, filters);
      r := !holds;
    }

    /** AddActorToWater. An invalid or filtered actor is ignored. An actor with a pending
        removal only has that removal cancelled. Otherwise its settings are gathered, the
        actor starts listening to its settings component, every component that should
        simulate and is not excluded is registered with its settings, and OnActorAddedToWater
        is raised. */
    method AddActorToWater(world: World, a: ActorId, settingsData: map<ComponentId, WaterPhysicsSettingsComponent>,
                           excludeClasses: seq<ClassId>, blueprintFilter: ActorId -> bool)
      requires Valid() && SettingsKnown(world, settingsData, a)
      modifies this, sceneComponent.scene
      ensures Valid() && filters == old(filters)
      ensures sceneComponent.scene.currentBufferIndex == old(sceneComponent.scene.currentBufferIndex)
      ensures State() == AfterAdd(old(State()), world, a, filters, settingsData, excludeClasses, blueprintFilter)
    {
      if !world.ActorValid(a) {
        return;
      }
      var filtered := FilterActorFromWaterPhysics(world, a, blueprintFilter);
      if filtered {
        return;
      }
      if a in actorsToRemove {
        actorsToRemove := actorsToRemove - {a};
        return;
      }
      AddNewActor(world, a, settingsData, excludeClasses);
    }

    /** The part of AddActorToWater for an actor that is admitted and not pending removal. */
    method AddNewActor(world: World, a: ActorId, settingsData: map<ComponentId, WaterPhysicsSettingsComponent>, excludeClasses: seq<ClassId>)
      requires Valid() && world.ActorValid(a) && SettingsKnown(world, settingsData, a)
      modifies this`subscriptions, this`notices, sceneComponent.scene
      ensures Valid() && sceneComponent.scene.currentBufferIndex == old(sceneComponent.scene.currentBufferIndex)
      ensures var g := Gathered(world, a, settingsData, excludeClasses);
        sceneComponent.scene.bodies == ComponentsAdded(old(sceneComponent.scene.bodies), world, world.ComponentsOf(a), AcceptFor(world, g), SettingsOf(g))
      ensures var g := Gathered(world, a, settingsData, excludeClasses);
        subscriptions == old(subscriptions) + (if g.settingsComponent.Some? then {g.settingsComponent.value} else {})
      ensures notices == old(notices) + [AddedToWater(a)]
    {
      var g := GatherActorWaterPhysicsSettings(world, a, settingsData, excludeClasses);
      AddGathered(world, a, g);
    }

    /** AddNewActor once the actor's settings have been gathered into `g`. */
    method AddGathered(world: World, a: ActorId, g: GatherResult)
      requires Valid()
      modifies this`subscriptions, this`notices, sceneComponent.scene
      ensures Valid() && sceneComponent.scene.currentBufferIndex == old(sceneComponent.scene.currentBufferIndex)
      ensures sceneComponent.scene.bodies == ComponentsAdded(old(sceneComponent.scene.bodies), world, world.ComponentsOf(a), AcceptFor(world, g), SettingsOf(g))
      ensures subscriptions == old(subscriptions) + (if g.settingsComponent.Some? then {g.settingsComponent.value} else {})
      ensures notices == old(notices) + [AddedToWater(a)]
    {
      if g.settingsComponent.Some? {
        subscriptions := subscriptions + {g.settingsComponent.value};
      }
      RegisterComponents(world, world.ComponentsOf(a), g);
      notices := notices + [AddedToWater(a)];
    }

    /** The component loop of AddActorToWater. */
    method RegisterComponents(world: World, cs: seq<ComponentId>, g: GatherResult)
      requires Valid()
      modifies sceneComponent.scene
      ensures Valid() && sceneComponent.scene.currentBufferIndex == old(sceneComponent.scene.currentBufferIndex)
      ensures sceneComponent.scene.bodies == ComponentsAdded(old(sceneComponent.scene.bodies), world, cs, AcceptFor(world, g), SettingsOf(g))
    {
      var i := 0;
      while i < |cs|
        invariant 0 <= i <= |cs|
        invariant Valid() && sceneComponent.scene.currentBufferIndex == old(sceneComponent.scene.currentBufferIndex)
        invariant sceneComponent.scene.bodies == ComponentsAdded(old(sceneComponent.scene.bodies), world, cs[..i], AcceptFor(world, g), SettingsOf(g))
      {
        assert cs[..i + 1][..i] == cs[..i];
        var c := cs[i];
        if ShouldComponentSimulateWaterPhysics(world, c) && !Excluded(g, c) {
          var settings := if c in g.componentsSettings then g.componentsSettings[c] else NewSettings();
          sceneComponent.AddComponentToWaterPhysics(world, c, settings, true, NameNone);
        }
        i := i + 1;
      }
      assert cs[..i] == cs;
    }

    /** RemoveActorFromWater. An invalid actor is ignored. A negative delay unregisters every
        component of the actor at once (RemoveActorNow). A delay of zero or more only queues
        (or re-times) a pending removal, so it is never immediate. */
    method RemoveActorFromWater(world: World, a: ActorId, removeDelay: real)
      requires Valid()
      modifies this, sceneComponent.scene
      ensures Valid() && filters == old(filters)
      ensures sceneComponent.scene.currentBufferIndex == old(sceneComponent.scene.currentBufferIndex)
      ensures State() == AfterRemove(old(State()), world, a, removeDelay)
    {
      if !world.ActorValid(a) {
        return;
      }
      if removeDelay < 0.0 {
        RemoveActorNow(world, a);
      } else {
        actorsToRemove := actorsToRemove[a := removeDelay];
      }
    }

    /** The immediate branch of RemoveActorFromWater: every component of the actor is
        unregistered, the actor stops listening to its settings component, and
        OnActorRemovedFromWater is raised if anything was registered. */
    method RemoveActorNow(world: World, a: ActorId)
      requires Valid() && world.ActorValid(a)
      modifies this`subscriptions, this`notices, sceneComponent.scene
      ensures Valid() && sceneComponent.scene.currentBufferIndex == old(sceneComponent.scene.currentBufferIndex)
      ensures State() == RemovedNow(old(State()), world, a)
    {
      var removed := sceneComponent.RemoveActorFromWaterPhysics(world, a);
      var settingsComponent := FindSettingsComponent(world, a);
      if settingsComponent.Some? {
        subscriptions := subscriptions - {settingsComponent.value};
      }
      if removed {
        notices := notices + [RemovedFromWater(a)];
      }
    }

    /** The pending-removal part of Tick: every entry is counted down by `deltaTime`; an actor
        that is gone is dropped, and one whose time has run out is removed at once and
        dropped. Every notice raised is the removal of an actor that fell due. */
    method Tick(world: World, deltaTime: real)
      requires Valid()
      modifies this, sceneComponent.scene
      ensures Valid() && filters == old(filters)
      ensures sceneComponent.scene.currentBufferIndex == old(sceneComponent.scene.currentBufferIndex)
      ensures actorsToRemove == TickedPending(old(actorsToRemove), world, deltaTime, old(actorsToRemove).Keys)
      ensures sceneComponent.scene.bodies == old(sceneComponent.scene.bodies) - DueComponents(old(actorsToRemove), world, deltaTime, old(actorsToRemove).Keys)
      ensures subscriptions == old(subscriptions) - SettingsSubscriptions(old(actorsToRemove), world, deltaTime, old(actorsToRemove).Keys)
      ensures |notices| >= |old(notices)| && notices[..|old(notices)|] == old(notices)
      ensures DueRemovals(old(actorsToRemove), world, deltaTime, notices[|old(notices)|..])
      ensures NoRepeats(notices[|old(notices)|..])
      ensures forall k :: |old(notices)| <= k < |notices| ==>
        notices[k].actor in DueRegistered(old(actorsToRemove), world, deltaTime, old(sceneComponent.scene.bodies))
      ensures world.SingleOwners() ==>
        forall a :: a in DueRegistered(old(actorsToRemove), world, deltaTime, old(sceneComponent.scene.bodies)) ==>
          RemovedFromWater(a) in notices[|old(notices)|..]
      ensures world.SingleOwners() ==>
        |notices| - |old(notices)| == |DueRegistered(old(actorsToRemove), world, deltaTime, old(sceneComponent.scene.bodies))|
    {
      ghost var pending := actorsToRemove;
      ghost var bodies := sceneComponent.scene.bodies;
      ghost var subscribed := subscriptions;
      ghost var raised := notices;
      var remaining := actorsToRemove.Keys;
      ghost var done: set<ActorId> := {};
      ghost var added: seq<Notice> := [];
      while remaining != {}
        invariant remaining + done == pending.Keys && remaining !! done
        invariant Valid() && filters == old(filters)
        invariant sceneComponent.scene.currentBufferIndex == old(sceneComponent.scene.currentBufferIndex)
        invariant actorsToRemove == TickedPending(pending, world, deltaTime, done)
        invariant sceneComponent.scene.bodies == bodies - DueComponents(pending, world, deltaTime, done)
        invariant subscriptions == subscribed - SettingsSubscriptions(pending, world, deltaTime, done)
        invariant notices == raised + added && NoticesSoFar(pending, world, deltaTime, bodies, done, added)
        decreases remaining
      {
        var a :| a in remaining;
        TickedPendingStep(pending, world, deltaTime, done, a);
        DueStep(pending, world, deltaTime, done, a, bodies, subscribed);
        ghost var raisedHere := TickEntry(world, deltaTime, a);
        NoticesStep(pending, world, deltaTime, bodies, done, added, a, raisedHere);
        added := added + raisedHere;
        remaining := remaining - {a};
        done := done + {a};
      }
      assert notices[..|raised|] == raised && notices[|raised|..] == added;
      AllNotices(pending, world, deltaTime, bodies, added);
    }

    /** One entry of the Tick loop: an actor that is gone is dropped; otherwise its time is
        counted down, and when it runs out the actor is removed at once and dropped. */
    method TickEntry(world: World, deltaTime: real, a: ActorId) returns (ghost raisedHere: seq<Notice>)
      requires Valid() && a in actorsToRemove
      modifies this`actorsToRemove, this`subscriptions, this`notices, sceneComponent.scene
      ensures Valid() && sceneComponent.scene.currentBufferIndex == old(sceneComponent.scene.currentBufferIndex)
      ensures var p := old(actorsToRemove);
        actorsToRemove == if world.ActorValid(a) && p[a] - deltaTime > 0.0 then p[a := p[a] - deltaTime] else p - {a}
      ensures world.ActorValid(a) && old(actorsToRemove)[a] - deltaTime <= 0.0 ==>
        var first := FirstSettingsComponent(world, world.ComponentsOf(a));
        sceneComponent.scene.bodies == old(sceneComponent.scene.bodies) - Elements(world.ComponentsOf(a)) &&
        subscriptions == old(subscriptions) - (if first.Some? then {first.value} else {}) &&
        raisedHere == (if AnyRegistered(old(sceneComponent.scene.bodies), world.ComponentsOf(a)) then [RemovedFromWater(a)] else [])
      ensures !(world.ActorValid(a) && old(actorsToRemove)[a] - deltaTime <= 0.0) ==>
        sceneComponent.scene.bodies == old(sceneComponent.scene.bodies) && subscriptions == old(subscriptions) && raisedHere == []
      ensures notices == old(notices) + raisedHere
    {
      raisedHere := [];
      if !world.ActorValid(a) {
        actorsToRemove := actorsToRemove - {a};
        return;
      }
      var time := actorsToRemove[a] - deltaTime;
      if time <= 0.0 {
        ghost var before := notices;
        RemoveActorNow(world, a);
        raisedHere := notices[|before|..];
        actorsToRemove := actorsToRemove - {a};
      } else {
        actorsToRemove := actorsToRemove[a := time];
      }
    }

    /** NotifyWaterPhysicsSettingsChanged: the owner's settings are gathered again; registered
        components of the owner that are now excluded are removed and the other registered
        ones get their new settings. */
    method NotifyWaterPhysicsSettingsChanged(world: World, settingsComponent: ComponentId,
                                             settingsData: map<ComponentId, WaterPhysicsSettingsComponent>, excludeClasses: seq<ClassId>)
      requires Valid() && settingsComponent in world.components
      requires SettingsKnown(world, settingsData, world.components[settingsComponent].owner)
      modifies sceneComponent.scene
      ensures Valid() && sceneComponent.scene.currentBufferIndex == old(sceneComponent.scene.currentBufferIndex)
      ensures var owner := world.components[settingsComponent].owner;
        sceneComponent.scene.bodies ==
          SettingsChanged(old(sceneComponent.scene.bodies), world, world.ComponentsOf(owner), Gathered(world, owner, settingsData, excludeClasses))
    {
      var owner := world.components[settingsComponent].owner;
      var g := GatherActorWaterPhysicsSettings(world, owner, settingsData, excludeClasses);
      var cs := world.ComponentsOf(owner);
      var i := 0;
      while i < |cs|
        invariant 0 <= i <= |cs|
        invariant Valid() && sceneComponent.scene.currentBufferIndex == old(sceneComponent.scene.currentBufferIndex)
        invariant sceneComponent.scene.bodies == SettingsChanged(old(sceneComponent.scene.bodies), world, cs[..i], g)
      {
        assert cs[..i + 1][..i] == cs[..i];
        ApplySettingsChange(world, cs[i], g);
        i := i + 1;
      }
      assert cs[..i] == cs;
    }

    /** The loop body of NotifyWaterPhysicsSettingsChanged for one component. */
    method ApplySettingsChange(world: World, c: ComponentId, g: GatherResult)
      requires Valid()
      modifies sceneComponent.scene
      ensures Valid() && sceneComponent.scene.currentBufferIndex == old(sceneComponent.scene.currentBufferIndex)
      ensures sceneComponent.scene.bodies == SettingsChangedOne(old(sceneComponent.scene.bodies), world, c, g)
    {
      var settings := if c in g.componentsSettings then g.componentsSettings[c] else NewSettings();
      var contains := sceneComponent.ContainsComponent(c);
      if contains {
        if c in g.blacklisted || (|g.whitelisted| > 0 && c !in g.whitelisted) {
          var _ := sceneComponent.RemoveComponentFromWaterPhysics(c, true, NameNone);
        } else {
          sceneComponent.SetComponentWaterPhysicsSettings(world, c, settings, true, NameNone);
        }
      }
    }
  }
}
