// Successive AddActorToWater and RemoveActorFromWater calls on one water-physics actor, as the
// subclasses issue them when they reconcile a set of overlapping actors, and what such a batch
// does to the pending removals and the notices.

module ActorBatches {
  import opened Engine
  import opened ComponentFilters
  import opened SettingsComponent
  import opened PhysicsActor

  /** The state after AddActorToWater on each of `actors`, in order. */
  function AddAll(s: ActorState, world: World, actors: seq<ActorId>, filters: seq<WaterPhysicsFilter>,
                  settingsData: map<ComponentId, WaterPhysicsSettingsComponent>, excludeClasses: seq<ClassId>,
                  blueprintFilter: ActorId -> bool): ActorState
    requires forall k :: 0 <= k < |actors| ==> SettingsKnown(world, settingsData, actors[k])
  {
    if |actors| == 0 then s
    else AfterAdd(AddAll(s, world, actors[..|actors| - 1], filters, settingsData, excludeClasses, blueprintFilter),
                  world, actors[|actors| - 1], filters, settingsData, excludeClasses, blueprintFilter)
  }

  /** The state after RemoveActorFromWater(actor, removeDelay) on each of `actors`, in order. */
  function RemoveAll(s: ActorState, world: World, actors: seq<ActorId>, removeDelay: real): ActorState {
    if |actors| == 0 then s
    else AfterRemove(RemoveAll(s, world, actors[..|actors| - 1], removeDelay), world, actors[|actors| - 1], removeDelay)
  }

  /** Queueing delayed removals touches nothing but the pending removals: each valid actor of
      `actors` is pending with exactly the delay, and every other entry is as it was. */
  lemma {:induction false} RemoveAllQueues(s: ActorState, world: World, actors: seq<ActorId>, removeDelay: real, a: ActorId)
    requires removeDelay >= 0.0
    ensures var r := RemoveAll(s, world, actors, removeDelay);
      r.bodies == s.bodies && r.subscriptions == s.subscriptions && r.notices == s.notices
    ensures var r := RemoveAll(s, world, actors, removeDelay);
      a in actors && world.ActorValid(a) ==> a in r.actorsToRemove && r.actorsToRemove[a] == removeDelay
    ensures var r := RemoveAll(s, world, actors, removeDelay);
      !(a in actors && world.ActorValid(a)) ==>
        (a in r.actorsToRemove <==> a in s.actorsToRemove) && (a in r.actorsToRemove ==> r.actorsToRemove[a] == s.actorsToRemove[a])
    decreases |actors|
  {
    if |actors| > 0 {
      var prefix := actors[..|actors| - 1];
      RemoveAllQueues(s, world, prefix, removeDelay, a);
      assert a in actors <==> a in prefix || a == actors[|actors| - 1] by {
        assert actors == prefix + [actors[|actors| - 1]];
      }
    }
  }

  /** Adding actors never adds a pending removal: an admitted actor of `actors` that was
      pending has its removal cancelled, and the pending removal of an actor not in
      `actors` is untouched. */
  lemma {:induction false} AddAllPending(s: ActorState, world: World, actors: seq<ActorId>, filters: seq<WaterPhysicsFilter>,
                                         settingsData: map<ComponentId, WaterPhysicsSettingsComponent>, excludeClasses: seq<ClassId>,
                                         blueprintFilter: ActorId -> bool, a: ActorId)
    requires forall k :: 0 <= k < |actors| ==> SettingsKnown(world, settingsData, actors[k])
    ensures var r := AddAll(s, world, actors, filters, settingsData, excludeClasses, blueprintFilter);
      r.actorsToRemove.Keys <= s.actorsToRemove.Keys
    ensures var r := AddAll(s, world, actors, filters, settingsData, excludeClasses, blueprintFilter);
      a in actors && Admitted(world, a, filters, blueprintFilter) && a in s.actorsToRemove ==> a !in r.actorsToRemove
    ensures var r := AddAll(s, world, actors, filters, settingsData, excludeClasses, blueprintFilter);
      a !in actors ==> (a in r.actorsToRemove <==> a in s.actorsToRemove) && (a in r.actorsToRemove ==> r.actorsToRemove[a] == s.actorsToRemove[a])
    decreases |actors|
  {
    if |actors| > 0 {
      var prefix, last := actors[..|actors| - 1], actors[|actors| - 1];
      AddAllPending(s, world, prefix, filters, settingsData, excludeClasses, blueprintFilter, a);
      assert a in actors <==> a in prefix || a == last by {
        assert actors == prefix + [last];
      }
      var m := AddAll(s, world, prefix, filters, settingsData, excludeClasses, blueprintFilter);
      AfterAddPendingAndNotices(m, world, last, filters, settingsData, excludeClasses, blueprintFilter);
    }
  }

  /** Adding actors only ever appends notices. */
  lemma {:induction false} AddAllKeepsNotices(s: ActorState, world: World, actors: seq<ActorId>, filters: seq<WaterPhysicsFilter>,
                                              settingsData: map<ComponentId, WaterPhysicsSettingsComponent>, excludeClasses: seq<ClassId>,
                                              blueprintFilter: ActorId -> bool)
    requires forall k :: 0 <= k < |actors| ==> SettingsKnown(world, settingsData, actors[k])
    ensures var r := AddAll(s, world, actors, filters, settingsData, excludeClasses, blueprintFilter);
      |r.notices| >= |s.notices| && r.notices[..|s.notices|] == s.notices
    decreases |actors|
  {
    if |actors| > 0 {
      var prefix, last := actors[..|actors| - 1], actors[|actors| - 1];
      AddAllKeepsNotices(s, world, prefix, filters, settingsData, excludeClasses, blueprintFilter);
      var m := AddAll(s, world, prefix, filters, settingsData, excludeClasses, blueprintFilter);
      AfterAddPendingAndNotices(m, world, last, filters, settingsData, excludeClasses, blueprintFilter);
    }
  }

  /** Adding actors only ever appends notices, and an admitted actor of `actors` that was not
      pending removal is announced with OnActorAddedToWater. */
  lemma {:induction false} AddAllNotices(s: ActorState, world: World, actors: seq<ActorId>, filters: seq<WaterPhysicsFilter>,
                                         settingsData: map<ComponentId, WaterPhysicsSettingsComponent>, excludeClasses: seq<ClassId>,
                                         blueprintFilter: ActorId -> bool, a: ActorId)
    requires forall k :: 0 <= k < |actors| ==> SettingsKnown(world, settingsData, actors[k])
    ensures var r := AddAll(s, world, actors, filters, settingsData, excludeClasses, blueprintFilter);
      |r.notices| >= |s.notices| && r.notices[..|s.notices|] == s.notices
    ensures var r := AddAll(s, world, actors, filters, settingsData, excludeClasses, blueprintFilter);
      a in actors && Admitted(world, a, filters, blueprintFilter) && a !in s.actorsToRemove ==> AddedToWater(a) in r.notices
    decreases |actors|
  {
    AddAllKeepsNotices(s, world, actors, filters, settingsData, excludeClasses, blueprintFilter);
    if |actors| > 0 {
      var prefix, last := actors[..|actors| - 1], actors[|actors| - 1];
      AddAllNotices(s, world, prefix, filters, settingsData, excludeClasses, blueprintFilter, a);
      AddAllPending(s, world, prefix, filters, settingsData, excludeClasses, blueprintFilter, a);
      assert a in actors <==> a in prefix || a == last by {
        assert actors == prefix + [last];
      }
      var m := AddAll(s, world, prefix, filters, settingsData, excludeClasses, blueprintFilter);
      var r := AfterAdd(m, world, last, filters, settingsData, excludeClasses, blueprintFilter);
      AfterAddPendingAndNotices(m, world, last, filters, settingsData, excludeClasses, blueprintFilter);
      if a in actors && Admitted(world, a, filters, blueprintFilter) && a !in s.actorsToRemove && a in prefix {
        var k :| 0 <= k < |m.notices| && m.notices[k] == AddedToWater(a);
        assert r.notices[k] == AddedToWater(a);
      }
    }
  }

  /** What one AddActorToWater does to the pending removals and the notices. */
  lemma AfterAddPendingAndNotices(s: ActorState, world: World, a: ActorId, filters: seq<WaterPhysicsFilter>,
                                  settingsData: map<ComponentId, WaterPhysicsSettingsComponent>, excludeClasses: seq<ClassId>,
                                  blueprintFilter: ActorId -> bool)
    requires SettingsKnown(world, settingsData, a)
    ensures var r := AfterAdd(s, world, a, filters, settingsData, excludeClasses, blueprintFilter);
      var cancels := Admitted(world, a, filters, blueprintFilter) && a in s.actorsToRemove;
      var announces := Admitted(world, a, filters, blueprintFilter) && a !in s.actorsToRemove;
      r.actorsToRemove == (if cancels then s.actorsToRemove - {a} else s.actorsToRemove) &&
      r.notices == s.notices + (if announces then [AddedToWater(a)] else [])
  {
  }
}
