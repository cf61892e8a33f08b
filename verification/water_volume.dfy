// AWaterPhysics_WaterVolume: a box of water. The actors overlapping the box are found either
// by the engine's overlap events or by an asynchronous overlap query issued every Tick; each
// new set of overlapping actors is reconciled with the previous one, adding the actors that
// entered and queueing the removal of those that left.

module WaterVolumes {
  import opened Vectors
  import opened Engine
  import opened WaterPhysicsTypes
  import opened ComponentFilters
  import opened SettingsComponent
  import opened PhysicsActor
  import opened ActorBatches

  /** EWaterVolumeOverlapMethod. */
  datatype OverlapMethod = Overlap | Trace

  /** The delay UpdateOverlappedActors puts on the removal of an actor that left the box, so
      that a body skipping on the surface is not removed. */
  const LeaveRemoveDelay: real := 1.0

  /** The water information a volume answers: the query point moved, in the box's own frame,
      onto the height of the box's top face, and the box's up vector. */
  function VolumeWaterInfo(location: Vec3, toLocal: Vec3 -> Vec3, toWorld: Vec3 -> Vec3, boxUp: Vec3, extentZ: real): WaterInfoResult {
    var relative := toLocal(location);
    WaterInfoResult(toWorld(Vec3(relative.x, relative.y, extentZ)), boxUp, Zero)
  }

  /** When the two transforms are inverse, the surface point lies on the box's top face,
      straight above or below the query point in the box's frame; the water never moves. */
  lemma VolumeWaterInfoOnTopFace(location: Vec3, toLocal: Vec3 -> Vec3, toWorld: Vec3 -> Vec3, boxUp: Vec3, extentZ: real)
    requires forall v :: toLocal(toWorld(v)) == v
    ensures var r := VolumeWaterInfo(location, toLocal, toWorld, boxUp, extentZ);
      toLocal(r.waterSurfaceLocation) == Vec3(toLocal(location).x, toLocal(location).y, extentZ) &&
      r.waterSurfaceNormal == boxUp && r.waterVelocity == Zero
  {
  }

  /** The actors of an asynchronous overlap result, dropping results without an actor. */
  function ResultActors(results: seq<Option<ActorId>>): set<ActorId> {
    set k | 0 <= k < |results| && results[k].Some? :: results[k].value
  }

  /** AWaterPhysics_WaterVolume. The box component is reduced to its overlap-event switch
      and its transform, which CalculateWaterInfo takes as arguments. */
  class WaterVolume {
    const base: WaterPhysicsActor
    /** OverlappingActors: the actors the last reconciliation saw. */
    var overlappingActors: set<ActorId>
    /** NewOverlappingActors: the actors overlapping now. */
    var newOverlappingActors: set<ActorId>
    var overlapMethod: OverlapMethod
    /** Whether the box generates overlap events. */
    var generateOverlapEvents: bool
    /** Whether the actor ticks. */
    var tickEnabled: bool
    /** The asynchronous overlap queries issued so far. */
    var overlapQueries: nat

    ghost predicate Valid()
      reads this, base, base.sceneComponent, base.sceneComponent.scene
    {
      base.Valid()
    }

    constructor()
      ensures Valid() && fresh(base) && fresh(base.sceneComponent) && fresh(base.sceneComponent.scene)
      ensures base.State() == ActorState(map[], map[], {}, []) && base.filters == []
      ensures overlappingActors == {} && newOverlappingActors == {} && overlapMethod == Overlap
      ensures !generateOverlapEvents && tickEnabled && overlapQueries == 0
    {
      base := new WaterPhysicsActor();
      overlappingActors := {};
      newOverlappingActors := {};
      overlapMethod := Overlap;
      generateOverlapEvents := false;
      tickEnabled := true;
      overlapQueries := 0;
    }

    /** UpdateOverlappedActors: every actor that entered is added to the water, then every
        actor that left has its removal queued with LeaveRemoveDelay; an actor that stayed
        gets no call. The engine visits each set in an order of its own, returned here as
        `addedOrder` and `removedOrder`. */
    method UpdateOverlappedActors(world: World, settingsData: map<ComponentId, WaterPhysicsSettingsComponent>,
                                  excludeClasses: seq<ClassId>, blueprintFilter: ActorId -> bool)
      returns (ghost addedOrder: seq<ActorId>, ghost removedOrder: seq<ActorId>)
      requires Valid() && forall a :: a in newOverlappingActors - overlappingActors ==> SettingsKnown(world, settingsData, a)
      modifies this`overlappingActors, base, base.sceneComponent.scene
      ensures Valid() && base.filters == old(base.filters) && overlappingActors == newOverlappingActors
      ensures (forall a :: a in addedOrder <==> a in newOverlappingActors - old(overlappingActors)) &&
              |addedOrder| == |newOverlappingActors - old(overlappingActors)|
      ensures (forall a :: a in removedOrder <==> a in old(overlappingActors) - newOverlappingActors) &&
              |removedOrder| == |old(overlappingActors) - newOverlappingActors|
      ensures forall k :: 0 <= k < |addedOrder| ==> SettingsKnown(world, settingsData, addedOrder[k])
      ensures base.State() ==
        RemoveAll(AddAll(old(base.State()), world, addedOrder, base.filters, settingsData, excludeClasses, blueprintFilter),
                  world, removedOrder, LeaveRemoveDelay)
    {
      addedOrder := AddActors(world, newOverlappingActors - overlappingActors, settingsData, excludeClasses, blueprintFilter);
      removedOrder := QueueRemovals(world, overlappingActors - newOverlappingActors, LeaveRemoveDelay);
      overlappingActors := newOverlappingActors;
    }

    /** The loop over the entered actors: AddActorToWater on each, in an order of the
        engine's, returned as `order`. */
    method AddActors(world: World, actors: set<ActorId>, settingsData: map<ComponentId, WaterPhysicsSettingsComponent>,
                     excludeClasses: seq<ClassId>, blueprintFilter: ActorId -> bool)
      returns (ghost order: seq<ActorId>)
      requires Valid() && forall a :: a in actors ==> SettingsKnown(world, settingsData, a)
      modifies base, base.sceneComponent.scene
      ensures Valid() && base.filters == old(base.filters)
      ensures (forall a :: a in order <==> a in actors) && |order| == |actors|
      ensures forall k :: 0 <= k < |order| ==> SettingsKnown(world, settingsData, order[k])
      ensures base.State() == AddAll(old(base.State()), world, order, base.filters, settingsData, excludeClasses, blueprintFilter)
    {
      var left := actors;
      order := [];
      while left != {}
        invariant Valid() && base.filters == old(base.filters)
        invariant left <= actors
        invariant forall a :: a in order <==> a in actors - left
        invariant |order| + |left| == |actors|
        invariant forall k :: 0 <= k < |order| ==> SettingsKnown(world, settingsData, order[k])
        invariant base.State() == AddAll(old(base.State()), world, order, base.filters, settingsData, excludeClasses, blueprintFilter)
        decreases left
      {
        var a :| a in left;
        base.AddActorToWater(world, a, settingsData, excludeClasses, blueprintFilter);
        left := left - {a};
        assert (order + [a])[..|order|] == order;
        order := order + [a];
      }
    }

    /** The loop over the actors that left: RemoveActorFromWater(actor, removeDelay) on each,
        in an order of the engine's, returned as `order`. */
    method QueueRemovals(world: World, actors: set<ActorId>, removeDelay: real) returns (ghost order: seq<ActorId>)
      requires Valid()
      modifies base, base.sceneComponent.scene
      ensures Valid() && base.filters == old(base.filters)
      ensures (forall a :: a in order <==> a in actors) && |order| == |actors|
      ensures base.State() == RemoveAll(old(base.State()), world, order, removeDelay)
    {
      var left := actors;
      order := [];
      while left != {}
        invariant Valid() && base.filters == old(base.filters)
        invariant left <= actors
        invariant forall a :: a in order <==> a in actors - left
        invariant |order| + |left| == |actors|
        invariant base.State() == RemoveAll(old(base.State()), world, order, removeDelay)
        decreases left
      {
        var a :| a in left;
        base.RemoveActorFromWater(world, a, removeDelay);
        left := left - {a};
        assert (order + [a])[..|order|] == order;
        order := order + [a];
      }
    }

    /** SetOverlapMethod: overlap events are generated exactly in Overlap mode and the actor
        ticks exactly in Trace mode; with `resetOverlaps` every tracked actor is treated as
        having left. */
    method SetOverlapMethod(world: World, newOverlapMethod: OverlapMethod, resetOverlaps: bool,
                            settingsData: map<ComponentId, WaterPhysicsSettingsComponent>, excludeClasses: seq<ClassId>,
                            blueprintFilter: ActorId -> bool)
      requires Valid()
      modifies this`overlapMethod, this`generateOverlapEvents, this`tickEnabled, this`newOverlappingActors, this`overlappingActors,
               base, base.sceneComponent.scene
      ensures Valid() && base.filters == old(base.filters) && overlapMethod == newOverlapMethod
      ensures generateOverlapEvents <==> newOverlapMethod == Overlap
      ensures tickEnabled <==> newOverlapMethod == Trace
      ensures !resetOverlaps ==>
        newOverlappingActors == old(newOverlappingActors) && overlappingActors == old(overlappingActors) &&
        base.State() == old(base.State())
      ensures resetOverlaps ==>
        newOverlappingActors == {} && overlappingActors == {} &&
        base.State().bodies == old(base.State()).bodies && base.State().notices == old(base.State()).notices &&
        forall a :: a in old(overlappingActors) && world.ActorValid(a) ==>
          a in base.actorsToRemove && base.actorsToRemove[a] == LeaveRemoveDelay
    {
      overlapMethod := newOverlapMethod;
      generateOverlapEvents := overlapMethod == Overlap;
      tickEnabled := overlapMethod == Trace;
      if resetOverlaps {
        newOverlappingActors := {};
        ghost var before := base.State();
        var addedOrder, removedOrder := UpdateOverlappedActors(world, settingsData, excludeClasses, blueprintFilter);
        assert |addedOrder| == 0;
        forall a | a in old(overlappingActors) && world.ActorValid(a)
          ensures a in base.actorsToRemove && base.actorsToRemove[a] == LeaveRemoveDelay
        {
          RemoveAllQueues(before, world, removedOrder, LeaveRemoveDelay, a);
        }
        RemoveAllQueues(before, world, removedOrder, LeaveRemoveDelay, 0);
      }
    }

    /** BeginPlay: applies the configured overlap method; in Overlap mode the actors already
        overlapping the box (`overlappingNow`, the engine's query) are reconciled at once,
        since the engine raises no begin-overlap for them. */
    method BeginPlay(world: World, overlappingNow: set<ActorId>, settingsData: map<ComponentId, WaterPhysicsSettingsComponent>,
                     excludeClasses: seq<ClassId>, blueprintFilter: ActorId -> bool)
      returns (ghost addedOrder: seq<ActorId>, ghost removedOrder: seq<ActorId>)
      requires Valid() && forall a :: a in overlappingNow ==> SettingsKnown(world, settingsData, a)
      modifies this`overlapMethod, this`generateOverlapEvents, this`tickEnabled, this`newOverlappingActors, this`overlappingActors,
               base, base.sceneComponent.scene
      ensures Valid() && overlapMethod == old(overlapMethod)
      ensures generateOverlapEvents <==> overlapMethod == Overlap
      ensures tickEnabled <==> overlapMethod == Trace
      ensures overlapMethod == Overlap ==> newOverlappingActors == overlappingNow && overlappingActors == overlappingNow
      ensures overlapMethod == Trace ==> newOverlappingActors == old(newOverlappingActors) && overlappingActors == old(overlappingActors)
      ensures base.filters == old(base.filters)
      ensures overlapMethod == Overlap ==>
        (forall a :: a in addedOrder <==> a in overlappingNow - old(overlappingActors)) &&
        |addedOrder| == |overlappingNow - old(overlappingActors)| &&
        (forall a :: a in removedOrder <==> a in old(overlappingActors) - overlappingNow) &&
        |removedOrder| == |old(overlappingActors) - overlappingNow| &&
        (forall k :: 0 <= k < |addedOrder| ==> SettingsKnown(world, settingsData, addedOrder[k])) &&
        base.State() ==
          RemoveAll(AddAll(old(base.State()), world, addedOrder, base.filters, settingsData, excludeClasses, blueprintFilter),
                    world, removedOrder, LeaveRemoveDelay)
      ensures overlapMethod == Trace ==> addedOrder == [] && removedOrder == [] && base.State() == old(base.State())
    {
      SetOverlapMethod(world, overlapMethod, false, settingsData, excludeClasses, blueprintFilter);
      addedOrder, removedOrder := [], [];
      if overlapMethod == Overlap {
        newOverlappingActors := overlappingNow;
        addedOrder, removedOrder := UpdateOverlappedActors(world, settingsData, excludeClasses, blueprintFilter);
      }
    }

    /** Tick: the water-physics actor's Tick; outside Overlap mode an asynchronous overlap
        query of the box is issued, answered later by OnFinishAsyncOverlap. */
    method Tick(world: World, deltaTime: real)
      requires Valid()
      modifies this`overlapQueries, base, base.sceneComponent.scene
      ensures Valid() && base.filters == old(base.filters)
      ensures overlapQueries == old(overlapQueries) + (if overlapMethod == Overlap then 0 else 1)
      ensures base.actorsToRemove == TickedPending(old(base.actorsToRemove), world, deltaTime, old(base.actorsToRemove).Keys)
      ensures base.sceneComponent.scene.bodies ==
        old(base.sceneComponent.scene.bodies) - DueComponents(old(base.actorsToRemove), world, deltaTime, old(base.actorsToRemove).Keys)
      ensures base.subscriptions ==
        old(base.subscriptions) - SettingsSubscriptions(old(base.actorsToRemove), world, deltaTime, old(base.actorsToRemove).Keys)
      ensures |base.notices| >= |old(base.notices)| && base.notices[..|old(base.notices)|] == old(base.notices)
      ensures DueRemovals(old(base.actorsToRemove), world, deltaTime, base.notices[|old(base.notices)|..])
      ensures NoRepeats(base.notices[|old(base.notices)|..])
      ensures world.SingleOwners() ==>
        forall a :: a in DueRegistered(old(base.actorsToRemove), world, deltaTime, old(base.sceneComponent.scene.bodies)) ==>
          RemovedFromWater(a) in base.notices[|old(base.notices)|..]
    {
      base.Tick(world, deltaTime);
      if overlapMethod != Overlap {
        overlapQueries := overlapQueries + 1;
      }
    }

    /** OnFinishAsyncOverlap: the actors of the query result become the overlapping set and
        are reconciled. */
    method OnFinishAsyncOverlap(world: World, results: seq<Option<ActorId>>, settingsData: map<ComponentId, WaterPhysicsSettingsComponent>,
                                excludeClasses: seq<ClassId>, blueprintFilter: ActorId -> bool)
      returns (ghost addedOrder: seq<ActorId>, ghost removedOrder: seq<ActorId>)
      requires Valid() && forall a :: a in ResultActors(results) ==> SettingsKnown(world, settingsData, a)
      modifies this`newOverlappingActors, this`overlappingActors, base, base.sceneComponent.scene
      ensures Valid() && newOverlappingActors == ResultActors(results) && overlappingActors == ResultActors(results)
      ensures base.filters == old(base.filters)
      ensures
        (forall a :: a in addedOrder <==> a in ResultActors(results) - old(overlappingActors)) &&
        |addedOrder| == |ResultActors(results) - old(overlappingActors)| &&
        (forall a :: a in removedOrder <==> a in old(overlappingActors) - ResultActors(results)) &&
        |removedOrder| == |old(overlappingActors) - ResultActors(results)| &&
        (forall k :: 0 <= k < |addedOrder| ==> SettingsKnown(world, settingsData, addedOrder[k])) &&
        base.State() ==
          RemoveAll(AddAll(old(base.State()), world, addedOrder, base.filters, settingsData, excludeClasses, blueprintFilter),
                    world, removedOrder, LeaveRemoveDelay)
    {
      var found: set<ActorId> := {};
      for k := 0 to |results|
        invariant found == set k' | 0 <= k' < k && results[k'].Some? :: results[k'].value
      {
        if results[k].Some? {
          found := found + {results[k].value};
        }
      }
      newOverlappingActors := found;
      addedOrder, removedOrder := UpdateOverlappedActors(world, settingsData, excludeClasses, blueprintFilter);
    }

    /** OnVolumeBeginOverlap: in Overlap mode the actor joins the overlapping set, which is
        reconciled; otherwise nothing happens. */
    method OnVolumeBeginOverlap(world: World, other: ActorId, settingsData: map<ComponentId, WaterPhysicsSettingsComponent>,
                                excludeClasses: seq<ClassId>, blueprintFilter: ActorId -> bool)
      returns (ghost addedOrder: seq<ActorId>, ghost removedOrder: seq<ActorId>)
      requires Valid() && forall a :: a in newOverlappingActors + {other} ==> SettingsKnown(world, settingsData, a)
      modifies this`newOverlappingActors, this`overlappingActors, base, base.sceneComponent.scene
      ensures Valid()
      ensures overlapMethod == Overlap ==>
        newOverlappingActors == old(newOverlappingActors) + {other} && overlappingActors == newOverlappingActors
      ensures overlapMethod != Overlap ==>
        newOverlappingActors == old(newOverlappingActors) && overlappingActors == old(overlappingActors) && base.State() == old(base.State())
      ensures base.filters == old(base.filters)
      ensures overlapMethod == Overlap ==>
        (forall a :: a in addedOrder <==> a in (old(newOverlappingActors) + {other}) - old(overlappingActors)) &&
        |addedOrder| == |(old(newOverlappingActors) + {other}) - old(overlappingActors)| &&
        (forall a :: a in removedOrder <==> a in old(overlappingActors) - (old(newOverlappingActors) + {other})) &&
        |removedOrder| == |old(overlappingActors) - (old(newOverlappingActors) + {other})| &&
        (forall k :: 0 <= k < |addedOrder| ==> SettingsKnown(world, settingsData, addedOrder[k])) &&
        base.State() ==
          RemoveAll(AddAll(old(base.State()), world, addedOrder, base.filters, settingsData, excludeClasses, blueprintFilter),
                    world, removedOrder, LeaveRemoveDelay)
      ensures overlapMethod != Overlap ==> addedOrder == [] && removedOrder == []
    {
      addedOrder, removedOrder := [], [];
      if overlapMethod == Overlap {
        newOverlappingActors := newOverlappingActors + {other};
        addedOrder, removedOrder := UpdateOverlappedActors(world, settingsData, excludeClasses, blueprintFilter);
      }
    }

    /** OnVolumeEndOverlap: in Overlap mode the actor leaves the overlapping set, which is
        reconciled; otherwise nothing happens. */
    method OnVolumeEndOverlap(world: World, other: ActorId, settingsData: map<ComponentId, WaterPhysicsSettingsComponent>,
                              excludeClasses: seq<ClassId>, blueprintFilter: ActorId -> bool)
      returns (ghost addedOrder: seq<ActorId>, ghost removedOrder: seq<ActorId>)
      requires Valid() && forall a :: a in newOverlappingActors ==> SettingsKnown(world, settingsData, a)
      modifies this`newOverlappingActors, this`overlappingActors, base, base.sceneComponent.scene
      ensures Valid()
      ensures overlapMethod == Overlap ==>
        newOverlappingActors == old(newOverlappingActors) - {other} && overlappingActors == newOverlappingActors
      ensures overlapMethod != Overlap ==>
        newOverlappingActors == old(newOverlappingActors) && overlappingActors == old(overlappingActors) && base.State() == old(base.State())
      ensures base.filters == old(base.filters)
      ensures overlapMethod == Overlap ==>
        (forall a :: a in addedOrder <==> a in (old(newOverlappingActors) - {other}) - old(overlappingActors)) &&
        |addedOrder| == |(old(newOverlappingActors) - {other}) - old(overlappingActors)| &&
        (forall a :: a in removedOrder <==> a in old(overlappingActors) - (old(newOverlappingActors) - {other})) &&
        |removedOrder| == |old(overlappingActors) - (old(newOverlappingActors) - {other})| &&
        (forall k :: 0 <= k < |addedOrder| ==> SettingsKnown(world, settingsData, addedOrder[k])) &&
        base.State() ==
          RemoveAll(AddAll(old(base.State()), world, addedOrder, base.filters, settingsData, excludeClasses, blueprintFilter),
                    world, removedOrder, LeaveRemoveDelay)
      ensures overlapMethod != Overlap ==> addedOrder == [] && removedOrder == []
    {
      addedOrder, removedOrder := [], [];
      if overlapMethod == Overlap {
        newOverlappingActors := newOverlappingActors - {other};
        addedOrder, removedOrder := UpdateOverlappedActors(world, settingsData, excludeClasses, blueprintFilter);
      }
    }
  }
}
