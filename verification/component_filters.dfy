// Component selection and actor filters: FActorComponentsSelection::GetComponents and
// FWaterPhysicsFilter::ProcessFilter/ProcessFilterList. A null class pointer is `None`;
// IsA against it is false, as is finding a component of it.

module ComponentFilters {
  import opened Engine
  import opened WaterPhysicsTypes

  /** The elements of s that keep accepts, in their order in s. */
  function Filter<T>(s: seq<T>, keep: T -> bool): (r: seq<T>)
    ensures |r| <= |s|
    decreases |s|
  {
    if |s| == 0 then [] else Filter(s[..|s| - 1], keep) + (if keep(s[|s| - 1]) then [s[|s| - 1]] else [])
  }

  /** Exactly the accepted elements of s are kept. */
  lemma {:induction false} FilterMembership<T>(s: seq<T>, keep: T -> bool, x: T)
    ensures x in Filter(s, keep) <==> x in s && keep(x)
    decreases |s|
  {
    if |s| > 0 {
      var init, last := s[..|s| - 1], s[|s| - 1];
      assert s == init + [last];
      FilterMembership(init, keep, x);
    }
  }

  /** FActorComponentsSelection: every component of the actor, or the named ones. */
  datatype ActorComponentsSelection = ActorComponentsSelection(selectAll: bool, componentNames: seq<Name>)

  /** The default selection selects all. */
  const DefaultSelection: ActorComponentsSelection := ActorComponentsSelection(true, [])

  /** IsA against any of the listed classes. */
  predicate IsAnyOf(world: World, c: ComponentId, classes: seq<ClassId>) {
    exists k :: 0 <= k < |classes| && world.IsA(c, classes[k])
  }

  /** The class test of GetComponents: some include class matches (or there are none) and no
      exclude class does. */
  predicate PassesClassFilters(world: World, c: ComponentId, includeClasses: seq<ClassId>, excludeClasses: seq<ClassId>) {
    (|includeClasses| == 0 || IsAnyOf(world, c, includeClasses)) && !IsAnyOf(world, c, excludeClasses)
  }

  /** The components held by the actor's object properties of the given names, in name order;
      a name with no such property contributes nothing. */
  function NamedComponents(properties: map<Name, ComponentId>, names: seq<Name>): (r: seq<ComponentId>)
    decreases |names|
  {
    if |names| == 0 then []
    else
      var last := names[|names| - 1];
      NamedComponents(properties, names[..|names| - 1]) + (if last in properties then [properties[last]] else [])
  }

  lemma {:induction false} NamedComponentsMembership(properties: map<Name, ComponentId>, names: seq<Name>, c: ComponentId)
    ensures c in NamedComponents(properties, names) <==> exists n :: n in names && n in properties && properties[n] == c
    decreases |names|
  {
    if |names| > 0 {
      var init, last := names[..|names| - 1], names[|names| - 1];
      assert names == init + [last];
      NamedComponentsMembership(properties, init, c);
    }
  }

  /** What GetComponents selects, as a function of the selection and the world. */
  function Selected(selection: ActorComponentsSelection, world: World, actor: ActorId,
                    includeClasses: seq<ClassId>, excludeClasses: seq<ClassId>): seq<ComponentId>
  {
    if !world.ActorValid(actor) then []
    else if selection.selectAll then
      Filter(world.ComponentsOf(actor), c => world.ComponentValid(c) && PassesClassFilters(world, c, includeClasses, excludeClasses))
    else
      Filter(NamedComponents(world.actors[actor].componentProperties, selection.componentNames),
             c => PassesClassFilters(world, c, includeClasses, excludeClasses))
  }

  /** A component is selected iff the actor is valid, it passes the class test, and it is one of
      the actor's valid components (select all) or held by a named property (otherwise). */
  lemma SelectedMembership(selection: ActorComponentsSelection, world: World, actor: ActorId,
                           includeClasses: seq<ClassId>, excludeClasses: seq<ClassId>, c: ComponentId)
    ensures c in Selected(selection, world, actor, includeClasses, excludeClasses) <==>
      world.ActorValid(actor) && PassesClassFilters(world, c, includeClasses, excludeClasses) &&
      if selection.selectAll then c in world.ComponentsOf(actor) && world.ComponentValid(c)
      else exists n :: n in selection.componentNames && n in world.actors[actor].componentProperties &&
                       world.actors[actor].componentProperties[n] == c
  {
    if world.ActorValid(actor) {
      if selection.selectAll {
        FilterMembership(world.ComponentsOf(actor), c => world.ComponentValid(c) && PassesClassFilters(world, c, includeClasses, excludeClasses), c);
      } else {
        var named := NamedComponents(world.actors[actor].componentProperties, selection.componentNames);
        FilterMembership(named, c => PassesClassFilters(world, c, includeClasses, excludeClasses), c);
        NamedComponentsMembership(world.actors[actor].componentProperties, selection.componentNames, c);
      }
    }
  }

  /** FindByPredicate over a class list: whether some class matches. */
  method FindAnyOf(world: World, c: ComponentId, classes: seq<ClassId>) returns (found: bool)
    ensures found == IsAnyOf(world, c, classes)
  {
    found := false;
    var k := 0;
    while k < |classes|
      invariant 0 <= k <= |classes|
      invariant !found && forall j :: 0 <= j < k ==> !world.IsA(c, classes[j])
    {
      if world.IsA(c, classes[k]) {
        return true;
      }
      k := k + 1;
    }
  }

  /** The class test with the two FindByPredicate searches. */
  method ShouldKeep(world: World, c: ComponentId, includeClasses: seq<ClassId>, excludeClasses: seq<ClassId>) returns (keep: bool)
    ensures keep == PassesClassFilters(world, c, includeClasses, excludeClasses)
  {
    keep := false;
    var included := true;
    if |includeClasses| != 0 {
      included := FindAnyOf(world, c, includeClasses);
    }
    if included {
      var excluded := FindAnyOf(world, c, excludeClasses);
      keep := !excluded;
    }
  }

  /** GetComponents: the selected components, in the actor's component order (select all) or
      in name order. */
  method GetComponents(selection: ActorComponentsSelection, world: World, actor: ActorId,
                       includeClasses: seq<ClassId>, excludeClasses: seq<ClassId>) returns (out: seq<ComponentId>)
    ensures out == Selected(selection, world, actor, includeClasses, excludeClasses)
    ensures forall c :: c in out ==> PassesClassFilters(world, c, includeClasses, excludeClasses)
  {
    out := [];
    if !world.ActorValid(actor) {
      return;
    }
    if selection.selectAll {
      out := SelectFromComponents(world, world.ComponentsOf(actor), includeClasses, excludeClasses);
    } else {
      out := SelectFromNames(world, world.actors[actor].componentProperties, selection.componentNames, includeClasses, excludeClasses);
    }
    forall c | c in out
      ensures PassesClassFilters(world, c, includeClasses, excludeClasses)
    {
      SelectedMembership(selection, world, actor, includeClasses, excludeClasses, c);
    }
  }

  /** The select-all loop of GetComponents. */
  method SelectFromComponents(world: World, components: seq<ComponentId>,
                              includeClasses: seq<ClassId>, excludeClasses: seq<ClassId>) returns (out: seq<ComponentId>)
    ensures out == Filter(components, c => world.ComponentValid(c) && PassesClassFilters(world, c, includeClasses, excludeClasses))
  {
    out := [];
    ghost var keep := c => world.ComponentValid(c) && PassesClassFilters(world, c, includeClasses, excludeClasses);
    var i := 0;
    while i < |components|
      invariant 0 <= i <= |components|
      invariant out == Filter(components[..i], keep)
    {
      var component := components[i];
      assert components[..i + 1][..i] == components[..i];
      if world.ComponentValid(component) {
        var passes := ShouldKeep(world, component, includeClasses, excludeClasses);
        if passes {
          out := out + [component];
        }
      }
      i := i + 1;
    }
    assert components[..i] == components;
  }

  /** The named-components loop of GetComponents. */
  method SelectFromNames(world: World, properties: map<Name, ComponentId>, names: seq<Name>,
                         includeClasses: seq<ClassId>, excludeClasses: seq<ClassId>) returns (out: seq<ComponentId>)
    ensures out == Filter(NamedComponents(properties, names), c => PassesClassFilters(world, c, includeClasses, excludeClasses))
  {
    out := [];
    ghost var keep := c => PassesClassFilters(world, c, includeClasses, excludeClasses);
    var i := 0;
    while i < |names|
      invariant 0 <= i <= |names|
      invariant out == Filter(NamedComponents(properties, names[..i]), keep)
    {
      assert names[..i + 1][..i] == names[..i];
      ghost var before := NamedComponents(properties, names[..i]);
      if names[i] in properties {
        var component := properties[names[i]];
        assert NamedComponents(properties, names[..i + 1]) == before + [component];
        var passes := ShouldKeep(world, component, includeClasses, excludeClasses);
        if passes {
          out := out + [component];
        }
      } else {
        assert NamedComponents(properties, names[..i + 1]) == before;
      }
      i := i + 1;
    }
    assert names[..i] == names;
  }

  datatype FilterOperation = And | Or

  datatype FilterType = TagFilter | ActorClassFilter | ComponentClassFilter

  /** FWaterPhysicsFilter. */
  datatype WaterPhysicsFilter = WaterPhysicsFilter(
    not: bool,
    operation: FilterOperation,
    filterType: FilterType,
    tag: Name,
    actorsClass: Option<ClassId>,
    componentClass: Option<ClassId>)

  /** FindComponentByClass is non-null: some component of the actor is of the class. */
  predicate HasComponentOfClass(world: World, actor: ActorId, cls: Option<ClassId>) {
    cls.Some? && exists k :: 0 <= k < |world.ComponentsOf(actor)| && world.IsA(world.ComponentsOf(actor)[k], cls.value)
  }

  /** The test a filter makes, before its Not. */
  predicate FilterTest(world: World, actor: ActorId, filter: WaterPhysicsFilter)
    requires world.ActorValid(actor)
  {
    match filter.filterType
    case TagFilter => filter.tag in world.actors[actor].tags
    case ActorClassFilter => filter.actorsClass.Some? && filter.actorsClass.value in world.actors[actor].classes
    case ComponentClassFilter => HasComponentOfClass(world, actor, filter.componentClass)
  }

  /** ProcessFilter: the filter's test exclusive-or its Not flag (the actor must be valid). */
  predicate ProcessFilter(world: World, actor: ActorId, filter: WaterPhysicsFilter)
    requires world.ActorValid(actor)
  {
    FilterTest(world, actor, filter) != filter.not
  }

  /** Setting Not inverts a filter, whatever its type. */
  lemma ProcessFilterNot(world: World, actor: ActorId, filter: WaterPhysicsFilter)
    requires world.ActorValid(actor)
    ensures ProcessFilter(world, actor, filter.(not := !filter.not)) == !ProcessFilter(world, actor, filter)
    ensures !filter.not ==> (ProcessFilter(world, actor, filter) <==> FilterTest(world, actor, filter))
  {
  }

  /** The flattening of a list of groups. */
  function Concat<T>(groups: seq<seq<T>>): seq<T>
    decreases |groups|
  {
    if |groups| == 0 then [] else Concat(groups[..|groups| - 1]) + groups[|groups| - 1]
  }

  /** The AND groups of a non-empty filter list, built as ProcessFilterList builds them: the
      first element and every And element join the last group; any later Or element opens a
      new group. */
  function FilterGroups(filters: seq<WaterPhysicsFilter>): (groups: seq<seq<WaterPhysicsFilter>>)
    requires |filters| > 0
    ensures |groups| > 0 && forall g :: 0 <= g < |groups| ==> |groups[g]| > 0
    decreases |filters|
  {
    if |filters| == 1 then [[filters[0]]]
    else
      var groups := FilterGroups(filters[..|filters| - 1]);
      var filter := filters[|filters| - 1];
      if filter.operation == And then groups[..|groups| - 1] + [groups[|groups| - 1] + [filter]]
      else groups + [[filter]]
  }

  /** Flattened, the groups give the filter list back, in order. */
  lemma {:induction false} FilterGroupsConcat(filters: seq<WaterPhysicsFilter>)
    requires |filters| > 0
    ensures Concat(FilterGroups(filters)) == filters
    decreases |filters|
  {
    if |filters| > 1 {
      var init, filter := filters[..|filters| - 1], filters[|filters| - 1];
      assert filters == init + [filter];
      FilterGroupsConcat(init);
      var groups := FilterGroups(init);
      var n := |groups|;
      if filter.operation == And {
        var groups' := groups[..n - 1] + [groups[n - 1] + [filter]];
        assert groups'[..n - 1] == groups[..n - 1];
        assert Concat(groups) == Concat(groups[..n - 1]) + groups[n - 1];
        assert Concat(groups') == Concat(groups[..n - 1]) + (groups[n - 1] + [filter]);
      } else {
        var groups': seq<seq<WaterPhysicsFilter>> := groups + [[filter]];
        assert groups'[..n] == groups;
      }
    } else {
      assert FilterGroups(filters)[..0] == [];
    }
  }

  /** The groups are the maximal runs that start at the head of the list or at an Or element:
      each later group starts with an Or element and every other member of a group is an And
      element. */
  lemma {:induction false} FilterGroupsOperations(filters: seq<WaterPhysicsFilter>)
    requires |filters| > 0
    ensures GroupsStartWithOr(FilterGroups(filters)) && GroupsContinueWithAnd(FilterGroups(filters))
    decreases |filters|
  {
    if |filters| > 1 {
      var init, filter := filters[..|filters| - 1], filters[|filters| - 1];
      FilterGroupsOperations(init);
      var groups := FilterGroups(init);
      var n := |groups|;
      if filter.operation == And {
        var last := groups[n - 1] + [filter];
        var groups': seq<seq<WaterPhysicsFilter>> := groups[..n - 1] + [last];
        assert FilterGroups(filters) == groups';
        forall g | 0 < g < |groups'|
          ensures groups'[g][0].operation == Or
        {
          assert groups'[g][0] == groups[g][0];
        }
        forall g, j | 0 <= g < |groups'| && 0 < j < |groups'[g]|
          ensures groups'[g][j].operation == And
        {
          if g < n - 1 {
            assert groups'[g] == groups[g];
          } else if j < |groups[n - 1]| {
            assert groups'[g][j] == groups[n - 1][j];
          } else {
            assert groups'[g][j] == filter;
          }
        }
      } else {
        var groups': seq<seq<WaterPhysicsFilter>> := groups + [[filter]];
        assert FilterGroups(filters) == groups';
        forall g | 0 < g < |groups'|
          ensures groups'[g][0].operation == Or
        {
          if g < n {
            assert groups'[g] == groups[g];
          }
        }
        forall g, j | 0 <= g < |groups'| && 0 < j < |groups'[g]|
          ensures groups'[g][j].operation == And
        {
          assert groups'[g] == groups[g];
        }
      }
    }
  }

  predicate GroupsStartWithOr(groups: seq<seq<WaterPhysicsFilter>>) {
    forall g :: 0 < g < |groups| && |groups[g]| > 0 ==> groups[g][0].operation == Or
  }

  predicate GroupsContinueWithAnd(groups: seq<seq<WaterPhysicsFilter>>) {
    forall g, j :: 0 <= g < |groups| && 0 < j < |groups[g]| ==> groups[g][j].operation == And
  }

  /** Every filter of a group holds for the actor. */
  predicate AllHold(world: World, actor: ActorId, group: seq<WaterPhysicsFilter>)
    requires world.ActorValid(actor)
  {
    forall k :: 0 <= k < |group| ==> ProcessFilter(world, actor, group[k])
  }

  /** The meaning of a filter list: it is non-empty and some AND group holds entirely. */
  predicate FilterListHolds(world: World, actor: ActorId, filters: seq<WaterPhysicsFilter>)
    requires world.ActorValid(actor)
  {
    |filters| > 0 &&
    var groups := FilterGroups(filters);
    exists g :: 0 <= g < |groups| && AllHold(world, actor, groups[g])
  }

  /** A list whose later elements are all And is one conjunction. */
  lemma FilterListAllAnd(world: World, actor: ActorId, filters: seq<WaterPhysicsFilter>)
    requires world.ActorValid(actor) && |filters| > 0
    requires forall k :: 0 < k < |filters| ==> filters[k].operation == And
    ensures FilterListHolds(world, actor, filters) <==> forall k :: 0 <= k < |filters| ==> ProcessFilter(world, actor, filters[k])
  {
    FilterGroupsConcat(filters);
    FilterGroupsOperations(filters);
    var groups: seq<seq<WaterPhysicsFilter>> := FilterGroups(filters);
    if |groups| > 1 {
      assert groups[1][0].operation == Or;
      assert groups == groups[..1] + groups[1..];
      ConcatSplit(groups[..1], groups[1..]);
      assert Concat(groups[..1]) == groups[0];
      assert filters[|groups[0]|] == groups[1][0] by {
        ConcatHead(groups[1..]);
      }
      assert false;
    }
    assert Concat(groups) == groups[0];
  }

  /** A list whose later elements are all Or is one disjunction. */
  lemma FilterListAllOr(world: World, actor: ActorId, filters: seq<WaterPhysicsFilter>)
    requires world.ActorValid(actor) && |filters| > 0
    requires forall k :: 0 < k < |filters| ==> filters[k].operation == Or
    ensures FilterListHolds(world, actor, filters) <==> exists k :: 0 <= k < |filters| && ProcessFilter(world, actor, filters[k])
  {
    AllOrGroups(filters);
    var groups := FilterGroups(filters);
    forall g | 0 <= g < |groups|
      ensures AllHold(world, actor, groups[g]) <==> ProcessFilter(world, actor, filters[g])
    {
      assert groups[g] == [filters[g]] && groups[g][0] == filters[g];
      assert AllHold(world, actor, groups[g]) ==> ProcessFilter(world, actor, groups[g][0]);
    }
  }

  lemma {:induction false} AllOrGroups(filters: seq<WaterPhysicsFilter>)
    requires |filters| > 0
    requires forall k :: 0 < k < |filters| ==> filters[k].operation == Or
    ensures |FilterGroups(filters)| == |filters|
    ensures forall k :: 0 <= k < |filters| ==> FilterGroups(filters)[k] == [filters[k]]
    decreases |filters|
  {
    if |filters| > 1 {
      AllOrGroups(filters[..|filters| - 1]);
    }
  }

  lemma {:induction false} ConcatSplit<T>(a: seq<seq<T>>, b: seq<seq<T>>)
    ensures Concat(a + b) == Concat(a) + Concat(b)
    decreases |b|
  {
    if |b| > 0 {
      var init := b[..|b| - 1];
      assert (a + b)[..|a + b| - 1] == a + init;
      ConcatSplit(a, init);
    } else {
      assert a + b == a;
    }
  }

  lemma {:induction false} ConcatHead<T>(groups: seq<seq<T>>)
    requires |groups| > 0 && |groups[0]| > 0
    ensures |Concat(groups)| > 0 && Concat(groups)[0] == groups[0][0]
    decreases |groups|
  {
    if |groups| > 1 {
      ConcatHead(groups[..|groups| - 1]);
    }
  }

  /** GroupFilters: AndExpressionsList built in one pass over a non-empty filter list. */
  method GroupFilters(filters: seq<WaterPhysicsFilter>) returns (groups: seq<seq<WaterPhysicsFilter>>)
    requires |filters| > 0
    ensures groups == FilterGroups(filters)
    ensures Concat(groups) == filters
    ensures GroupsStartWithOr(groups) && GroupsContinueWithAnd(groups)
  {
    groups := [[]];
    var i := 0;
    while i < |filters|
      invariant 0 <= i <= |filters| && |groups| > 0
      invariant i == 0 ==> groups == [[]]
      invariant i > 0 ==> groups == FilterGroups(filters[..i])
    {
      var filter := filters[i];
      ghost var prefix := filters[..i + 1];
      assert prefix[..i] == filters[..i] && prefix[i] == filter;
      if filter.operation == And || i == 0 {
        ghost var before := groups;
        groups := groups[..|groups| - 1] + [groups[|groups| - 1] + [filter]];
        if i == 0 {
          assert before[..0] == [] && before[0] + [filter] == [filter];
          assert prefix == [filter] && groups == [[filter]];
        } else {
          assert FilterGroups(prefix) == groups;
        }
      } else {
        groups := groups + [[filter]];
        assert FilterGroups(prefix) == groups;
      }
      i := i + 1;
    }
    assert filters[..i] == filters;
    FilterGroupsConcat(filters);
    FilterGroupsOperations(filters);
  }

  /** EvaluateAndExpressions: whether every filter of a group holds. */
  method EvaluateAndExpressions(world: World, actor: ActorId, group: seq<WaterPhysicsFilter>) returns (ok: bool)
    requires world.ActorValid(actor)
    ensures ok == AllHold(world, actor, group)
  {
    var k := 0;
    while k < |group|
      invariant 0 <= k <= |group|
      invariant forall j :: 0 <= j < k ==> ProcessFilter(world, actor, group[j])
    {
      if !ProcessFilter(world, actor, group[k]) {
        return false;
      }
      k := k + 1;
    }
    return true;
  }

  /** ProcessFilterList: false for an empty list; otherwise true iff some AND group holds. */
  method ProcessFilterList(world: World, actor: ActorId, filters: seq<WaterPhysicsFilter>) returns (r: bool)
    requires world.ActorValid(actor)
    ensures r == FilterListHolds(world, actor, filters)
  {
    if |filters| == 0 {
      return false;
    }
    var groups := GroupFilters(filters);
    r := AnyGroupHolds(world, actor, groups);
  }

  /** The loop of ProcessFilterList over AndExpressionsList: true at the first group that
      holds entirely. */
  method AnyGroupHolds(world: World, actor: ActorId, groups: seq<seq<WaterPhysicsFilter>>) returns (r: bool)
    requires world.ActorValid(actor)
    ensures r <==> exists g :: 0 <= g < |groups| && AllHold(world, actor, groups[g])
  {
    var g := 0;
    while g < |groups|
      invariant 0 <= g <= |groups|
      invariant forall h :: 0 <= h < g ==> !AllHold(world, actor, groups[h])
    {
      var ok := EvaluateAndExpressions(world, actor, groups[g]);
      if ok {
        return true;
      }
      g := g + 1;
    }
    return false;
  }
}
