// UWaterPhysicsSettingsComponent: the per-actor settings stack, its blacklist and whitelist,
// and the gathering of one merged settings record per selected component.

module SettingsComponent {
  import opened Engine
  import opened WaterPhysicsTypes
  import opened ComponentFilters

  /** FComponentsWaterPhysicsSettings: one entry of the settings stack. */
  datatype ComponentsWaterPhysicsSettings = ComponentsWaterPhysicsSettings(
    selection: ActorComponentsSelection,
    settings: WaterPhysicsSettings)

  /** What the gather reads of a UWaterPhysicsSettingsComponent. */
  datatype WaterPhysicsSettingsComponent = WaterPhysicsSettingsComponent(
    stack: seq<ComponentsWaterPhysicsSettings>,
    blacklist: ActorComponentsSelection,
    whitelist: ActorComponentsSelection)

  /** The constructor: an empty stack, a blacklist that selects by (no) names and a whitelist
      that selects all. */
  function NewSettingsComponent(): (sc: WaterPhysicsSettingsComponent)
    ensures |sc.stack| == 0 && !sc.blacklist.selectAll && sc.whitelist.selectAll
  {
    WaterPhysicsSettingsComponent([], ActorComponentsSelection(false, []), ActorComponentsSelection(true, []))
  }

  /** A new settings component blacklists nothing, whatever the actor. */
  lemma NewSettingsComponentBlacklistsNothing(world: World, actor: ActorId, excludeClasses: seq<ClassId>)
    ensures Selected(NewSettingsComponent().blacklist, world, actor, IncludeClasses, excludeClasses) == []
  {
  }

  /** FGatherWaterPhysicsSettingsResult. */
  datatype GatherResult = GatherResult(
    componentsSettings: map<ComponentId, WaterPhysicsSettings>,
    blacklisted: seq<ComponentId>,
    whitelisted: seq<ComponentId>,   // empty when every component is allowed
    settingsComponent: Option<ComponentId>)

  /** The classes a gathered component must be one of. */
  const IncludeClasses: seq<ClassId> := [PrimitiveComponentClass, WaterPhysicsCollisionComponentClass]

  /** The first component of the list that is a settings component. */
  function FirstSettingsComponent(world: World, components: seq<ComponentId>): (r: Option<ComponentId>)
    ensures r.Some? ==> r.value in components && world.IsA(r.value, WaterPhysicsSettingsComponentClass)
    ensures r.None? <==> forall k :: 0 <= k < |components| ==> !world.IsA(components[k], WaterPhysicsSettingsComponentClass)
    ensures r.Some? ==>
      exists k :: 0 <= k < |components| && components[k] == r.value &&
        forall j :: 0 <= j < k ==> !world.IsA(components[j], WaterPhysicsSettingsComponentClass)
    decreases |components|
  {
    if |components| == 0 then None
    else if world.IsA(components[0], WaterPhysicsSettingsComponentClass) then Some(components[0])
    else
      var r := FirstSettingsComponent(world, components[1..]);
      assert forall k :: 0 < k < |components| ==> components[k] == components[1..][k - 1];
      r
  }

  /** The search for the actor's settings component, stopping at the first. */
  method FindSettingsComponent(world: World, actor: ActorId) returns (r: Option<ComponentId>)
    ensures r == FirstSettingsComponent(world, world.ComponentsOf(actor))
  {
    var components := world.ComponentsOf(actor);
    var k := 0;
    while k < |components|
      invariant 0 <= k <= |components|
      invariant FirstSettingsComponent(world, components) == FirstSettingsComponent(world, components[k..])
    {
      if world.IsA(components[k], WaterPhysicsSettingsComponentClass) {
        return Some(components[k]);
      }
      assert components[k..][1..] == components[k + 1..];
      k := k + 1;
    }
    return None;
  }

  /** Without a settings component: every included, non-excluded component of the actor gets
      freshly constructed settings. */
  function DefaultGathered(world: World, actor: ActorId, excludeClasses: seq<ClassId>): map<ComponentId, WaterPhysicsSettings> {
    map c | c in world.ComponentsOf(actor) && PassesClassFilters(world, c, IncludeClasses, excludeClasses) :: NewSettings()
  }

  /** Neither blacklisted nor, when there is a whitelist, missing from it. */
  predicate Allowed(c: ComponentId, blacklisted: seq<ComponentId>, whitelisted: seq<ComponentId>) {
    c !in blacklisted && (|whitelisted| == 0 || c in whitelisted)
  }

  /** One layer to apply: a component and the settings to merge onto it. */
  type Layer = (ComponentId, WaterPhysicsSettings)

  /** The layers one stack entry applies: its settings for each allowed selected component. */
  function EntryLayers(selected: seq<ComponentId>, settings: WaterPhysicsSettings,
                       blacklisted: seq<ComponentId>, whitelisted: seq<ComponentId>): (r: seq<Layer>)
    ensures forall k :: 0 <= k < |r| ==> Allowed(r[k].0, blacklisted, whitelisted) && r[k].1 == settings
    decreases |selected|
  {
    if |selected| == 0 then []
    else
      var c := selected[|selected| - 1];
      EntryLayers(selected[..|selected| - 1], settings, blacklisted, whitelisted) +
        (if Allowed(c, blacklisted, whitelisted) then [(c, settings)] else [])
  }

  /** The layers the whole stack applies, entry by entry in index order. */
  function StackLayers(world: World, actor: ActorId, stack: seq<ComponentsWaterPhysicsSettings>, excludeClasses: seq<ClassId>,
                       blacklisted: seq<ComponentId>, whitelisted: seq<ComponentId>): (r: seq<Layer>)
    ensures forall k :: 0 <= k < |r| ==> Allowed(r[k].0, blacklisted, whitelisted)
    decreases |stack|
  {
    if |stack| == 0 then []
    else
      var entry := stack[|stack| - 1];
      StackLayers(world, actor, stack[..|stack| - 1], excludeClasses, blacklisted, whitelisted) +
        EntryLayers(Selected(entry.selection, world, actor, IncludeClasses, excludeClasses), entry.settings, blacklisted, whitelisted)
  }

  /** Applying one layer: the first layer of a component is stored, later ones are merged on. */
  function Apply(m: map<ComponentId, WaterPhysicsSettings>, layer: Layer): (r: map<ComponentId, WaterPhysicsSettings>)
    ensures r.Keys == m.Keys + {layer.0}
  {
    m[layer.0 := if layer.0 in m then Merge(m[layer.0], layer.1) else layer.1]
  }

  /** Applying layers in order. */
  function Layered(m: map<ComponentId, WaterPhysicsSettings>, layers: seq<Layer>): map<ComponentId, WaterPhysicsSettings>
    decreases |layers|
  {
    if |layers| == 0 then m else Apply(Layered(m, layers[..|layers| - 1]), layers[|layers| - 1])
  }

  lemma {:induction false} LayeredConcat(m: map<ComponentId, WaterPhysicsSettings>, a: seq<Layer>, b: seq<Layer>)
    ensures Layered(m, a + b) == Layered(Layered(m, a), b)
    decreases |b|
  {
    if |b| == 0 {
      assert a + b == a;
    } else {
      assert (a + b)[..|a + b| - 1] == a + b[..|b| - 1];
      LayeredConcat(m, a, b[..|b| - 1]);
    }
  }

  /** The settings the layers give a component, in order. */
  function SettingsFor(layers: seq<Layer>, c: ComponentId): seq<WaterPhysicsSettings>
    decreases |layers|
  {
    if |layers| == 0 then []
    else
      var last := layers[|layers| - 1];
      SettingsFor(layers[..|layers| - 1], c) + (if last.0 == c then [last.1] else [])
  }

  /** Starting from nothing, a component ends up in the map iff some layer names it, and then
      with its layers merged in order: the first stored, each later one merged on top, so a
      field set by a later layer overrides the earlier ones. */
  lemma {:induction false} LayeredMeaning(layers: seq<Layer>, c: ComponentId)
    ensures c in Layered(map[], layers) <==> |SettingsFor(layers, c)| > 0
    ensures c in Layered(map[], layers) ==>
      var applied := SettingsFor(layers, c);
      Layered(map[], layers)[c] == MergeLayers(applied[0], applied[1..])
    decreases |layers|
  {
    if |layers| > 0 {
      var init, last := layers[..|layers| - 1], layers[|layers| - 1];
      LayeredMeaning(init, c);
      var before := SettingsFor(init, c);
      var m := Layered(map[], init);
      assert Layered(map[], layers) == Apply(m, last);
      if last.0 == c {
        var applied := before + [last.1];
        assert SettingsFor(layers, c) == applied;
        if |before| > 0 {
          assert applied[1..] == before[1..] + [last.1];
          assert applied[1..][..|applied[1..]| - 1] == before[1..];
          assert applied[0] == before[0];
          assert MergeLayers(applied[0], applied[1..]) == Merge(MergeLayers(before[0], before[1..]), last.1);
        } else {
          assert applied == [last.1] && applied[1..] == [];
          assert c !in m;
        }
      } else {
        assert SettingsFor(layers, c) == before;
      }
    }
  }

  /** Per field, a component's gathered value is that of the last layer applied to it that sets
      the field: later stack entries take precedence. */
  lemma GatheredFieldFromLastSetter(layers: seq<Layer>, c: ComponentId, i: nat, k: nat)
    requires i < FieldCount
    requires k < |SettingsFor(layers, c)| && Field(SettingsFor(layers, c)[k], i).isSet
    requires forall j :: k < j < |SettingsFor(layers, c)| ==> !Field(SettingsFor(layers, c)[j], i).isSet
    ensures c in Layered(map[], layers) && Field(Layered(map[], layers)[c], i) == Field(SettingsFor(layers, c)[k], i)
  {
    LayeredMeaning(layers, c);
    var applied := SettingsFor(layers, c);
    var first, rest := applied[0], applied[1..];
    MergeLayersLastWins(first, rest, i);
    if k == 0 {
      assert forall j :: 0 <= j < |rest| ==> rest[j] == applied[j + 1];
    } else {
      assert rest[k - 1] == applied[k];
      assert forall j :: k - 1 < j < |rest| ==> rest[j] == applied[j + 1];
    }
  }

  /** Only allowed components are ever given settings from the stack. */
  lemma {:induction false} LayeredKeysAllowed(layers: seq<Layer>, blacklisted: seq<ComponentId>, whitelisted: seq<ComponentId>)
    requires forall k :: 0 <= k < |layers| ==> Allowed(layers[k].0, blacklisted, whitelisted)
    ensures forall c :: c in Layered(map[], layers) ==> Allowed(c, blacklisted, whitelisted)
    decreases |layers|
  {
    if |layers| > 0 {
      LayeredKeysAllowed(layers[..|layers| - 1], blacklisted, whitelisted);
    }
  }

  /** The inner loop over one entry's selected components. */
  method ApplyEntry(m: map<ComponentId, WaterPhysicsSettings>, selected: seq<ComponentId>, settings: WaterPhysicsSettings,
                    blacklisted: seq<ComponentId>, whitelisted: seq<ComponentId>)
    returns (r: map<ComponentId, WaterPhysicsSettings>)
    ensures r == Layered(m, EntryLayers(selected, settings, blacklisted, whitelisted))
  {
    r := m;
    var i := 0;
    while i < |selected|
      invariant 0 <= i <= |selected|
      invariant r == Layered(m, EntryLayers(selected[..i], settings, blacklisted, whitelisted))
    {
      var component := selected[i];
      assert selected[..i + 1][..i] == selected[..i];
      ghost var before := EntryLayers(selected[..i], settings, blacklisted, whitelisted);
      if component in blacklisted || (|whitelisted| > 0 && component !in whitelisted) {
        assert EntryLayers(selected[..i + 1], settings, blacklisted, whitelisted) == before;
      } else {
        assert EntryLayers(selected[..i + 1], settings, blacklisted, whitelisted) == before + [(component, settings)];
        LayeredConcat(m, before, [(component, settings)]);
        if component in r {
          r := r[component := Merge(r[component], settings)];
        } else {
          r := r[component := settings];
        }
      }
      i := i + 1;
    }
    assert selected[..i] == selected;
  }

  /** What GatherActorWaterPhysicsSettings returns, as one value. */
  function Gathered(world: World, actor: ActorId, settingsData: map<ComponentId, WaterPhysicsSettingsComponent>,
                    excludeClasses: seq<ClassId>): GatherResult
    requires var first := FirstSettingsComponent(world, world.ComponentsOf(actor)); first.Some? ==> first.value in settingsData
  {
    match FirstSettingsComponent(world, world.ComponentsOf(actor))
    case None => GatherResult(DefaultGathered(world, actor, excludeClasses), [], [], None)
    case Some(c) =>
      var sc := settingsData[c];
      var blacklisted := Selected(sc.blacklist, world, actor, IncludeClasses, excludeClasses);
      var whitelisted := if sc.whitelist.selectAll then [] else Selected(sc.whitelist, world, actor, IncludeClasses, excludeClasses);
      GatherResult(Layered(map[], StackLayers(world, actor, sc.stack, excludeClasses, blacklisted, whitelisted)),
                   blacklisted, whitelisted, Some(c))
  }

  /** GatherActorWaterPhysicsSettings. The settings component's contents are read from
      `settingsData`; the excluded classes (looked up by name in the source) are a parameter. */
  method GatherActorWaterPhysicsSettings(world: World, actor: ActorId, settingsData: map<ComponentId, WaterPhysicsSettingsComponent>,
                                         excludeClasses: seq<ClassId>) returns (r: GatherResult)
    requires var first := FirstSettingsComponent(world, world.ComponentsOf(actor)); first.Some? ==> first.value in settingsData
    ensures r.settingsComponent == FirstSettingsComponent(world, world.ComponentsOf(actor))
    ensures r.settingsComponent.None? ==>
      r.componentsSettings == DefaultGathered(world, actor, excludeClasses) && r.blacklisted == [] && r.whitelisted == []
    ensures r.settingsComponent.Some? ==>
      var sc := settingsData[r.settingsComponent.value];
      r.blacklisted == Selected(sc.blacklist, world, actor, IncludeClasses, excludeClasses) &&
      r.whitelisted == (if sc.whitelist.selectAll then [] else Selected(sc.whitelist, world, actor, IncludeClasses, excludeClasses)) &&
      r.componentsSettings == Layered(map[], StackLayers(world, actor, sc.stack, excludeClasses, r.blacklisted, r.whitelisted))
    ensures forall c :: c in r.componentsSettings ==> Allowed(c, r.blacklisted, r.whitelisted)
    ensures r == Gathered(world, actor, settingsData, excludeClasses)
  {
    var settingsComponent := FindSettingsComponent(world, actor);
    if settingsComponent.None? {
      var gathered := GatherDefaults(world, actor, excludeClasses);
      return GatherResult(gathered, [], [], None);
    }
    var sc := settingsData[settingsComponent.value];
    var blacklisted := GetComponents(sc.blacklist, world, actor, IncludeClasses, excludeClasses);
    var whitelisted := [];
    if !sc.whitelist.selectAll {
      whitelisted := GetComponents(sc.whitelist, world, actor, IncludeClasses, excludeClasses);
    }
    var gathered := ApplyStack(world, actor, sc.stack, excludeClasses, blacklisted, whitelisted);
    LayeredKeysAllowed(StackLayers(world, actor, sc.stack, excludeClasses, blacklisted, whitelisted), blacklisted, whitelisted);
    r := GatherResult(gathered, blacklisted, whitelisted, settingsComponent);
  }

  /** The loop of GatherActorWaterPhysicsSettings over the settings stack, in order. */
  method ApplyStack(world: World, actor: ActorId, stack: seq<ComponentsWaterPhysicsSettings>, excludeClasses: seq<ClassId>,
                    blacklisted: seq<ComponentId>, whitelisted: seq<ComponentId>) returns (gathered: map<ComponentId, WaterPhysicsSettings>)
    ensures gathered == Layered(map[], StackLayers(world, actor, stack, excludeClasses, blacklisted, whitelisted))
  {
    gathered := map[];
    var i := 0;
    while i < |stack|
      invariant 0 <= i <= |stack|
      invariant gathered == Layered(map[], StackLayers(world, actor, stack[..i], excludeClasses, blacklisted, whitelisted))
    {
      var entry := stack[i];
      assert stack[..i + 1][..i] == stack[..i] && stack[..i + 1][i] == entry;
      var selected := GetComponents(entry.selection, world, actor, IncludeClasses, excludeClasses);
      LayeredConcat(map[], StackLayers(world, actor, stack[..i], excludeClasses, blacklisted, whitelisted),
                    EntryLayers(selected, entry.settings, blacklisted, whitelisted));
      gathered := ApplyEntry(gathered, selected, entry.settings, blacklisted, whitelisted);
      i := i + 1;
    }
    assert stack[..i] == stack;
  }

  /** The loop of the branch without a settings component. */
  method GatherDefaults(world: World, actor: ActorId, excludeClasses: seq<ClassId>) returns (gathered: map<ComponentId, WaterPhysicsSettings>)
    ensures gathered == DefaultGathered(world, actor, excludeClasses)
  {
    var components := world.ComponentsOf(actor);
    gathered := map[];
    var i := 0;
    while i < |components|
      invariant 0 <= i <= |components|
      invariant gathered == map c | c in components[..i] && PassesClassFilters(world, c, IncludeClasses, excludeClasses) :: NewSettings()
    {
      var component := components[i];
      assert components[..i + 1] == components[..i] + [component];
      var keep := ShouldKeep(world, component, IncludeClasses, excludeClasses);
      if keep {
        gathered := gathered[component := NewSettings()];
      }
      i := i + 1;
    }
    assert components[..i] == components;
  }
}
