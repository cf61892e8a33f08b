// The parts of the game engine that the water-physics plugin queries but does not own.
// Actors, components and classes are opaque identifiers; what the plugin asks of them
// (validity, class membership, tags, attached components, mobility) is a snapshot value.

module Engine {

  type Name = string

  /** The engine's NAME_None. */
  const NameNone: Name := "None"

  type ActorId = nat
  type ComponentId = nat
  type ClassId = nat

  /** Classes the plugin tests components against. */
  const PrimitiveComponentClass: ClassId := 0
  const WaterPhysicsCollisionComponentClass: ClassId := 1
  const WaterPhysicsSettingsComponentClass: ClassId := 2

  datatype Mobility = Static | Stationary | Movable

  /** What the plugin can observe of one component. */
  datatype ComponentInfo = ComponentInfo(
    valid: bool,
    owner: ActorId,
    classes: set<ClassId>,           // every class the component IsA
    implementsCollisionInterface: bool,
    mobility: Mobility,
    bodyNames: seq<Name>)            // GetAllBodyNames / socket names

  /** What the plugin can observe of one actor. */
  datatype ActorInfo = ActorInfo(
    valid: bool,
    tags: set<Name>,
    classes: set<ClassId>,           // every class the actor IsA
    components: seq<ComponentId>,    // GetComponents(), in iteration order
    componentProperties: map<Name, ComponentId>)  // object properties of the actor's class, by name

  /** A snapshot of the engine objects the plugin can reach. */
  datatype World = World(actors: map<ActorId, ActorInfo>, components: map<ComponentId, ComponentInfo>)
  {
    predicate ActorValid(a: ActorId) {
      a in actors && actors[a].valid
    }

    predicate ComponentValid(c: ComponentId) {
      c in components && components[c].valid
    }

    predicate IsA(c: ComponentId, cls: ClassId) {
      c in components && cls in components[c].classes
    }

    /** The actor's components as the engine reports them (empty for an unknown actor). */
    function ComponentsOf(a: ActorId): seq<ComponentId> {
      if a in actors then actors[a].components else []
    }

    /** No component is listed by two actors, as the engine's one-owner rule for components
        implies. */
    ghost predicate SingleOwners() {
      forall a, b, c :: c in ComponentsOf(a) && c in ComponentsOf(b) ==> a == b
    }
  }
}
