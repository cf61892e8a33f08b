// AWaterPhysics_WaterBodyBase: water physics for actors that overlap water-body actors. For
// every simulated actor it keeps the water bodies the actor is in, sorted by priority; an
// actor enters the simulation with its first body and leaves it, after a short delay, with
// its last one. Water information is answered from the first (highest-priority) body.

module WaterBodies {
  import opened Vectors
  import opened Engine
  import opened WaterPhysicsTypes
  import opened SettingsComponent
  import opened SceneComponent
  import opened ComponentFilters
  import opened PhysicsActor

  /** The delay EndOverlap puts on a body's removal, so that an actor skipping along the
      surface is not added and removed over and over. */
  const EndOverlapRemoveDelay: real := 0.5

  /** GetWaterBodyPriority of the base class: every body has the same priority. */
  function BasePriority(waterBody: ActorId): int {
    -1
  }

  predicate SortedBy(s: seq<ActorId>, priority: ActorId -> int) {
    forall i, j :: 0 <= i < j < |s| ==> priority(s[i]) <= priority(s[j])
  }

  predicate Distinct(s: seq<ActorId>) {
    forall i, j :: 0 <= i < j < |s| ==> s[i] != s[j]
  }

  /** `x` inserted into `s` before the first element of greater or equal priority. */
  function InsertByPriority(s: seq<ActorId>, x: ActorId, priority: ActorId -> int): seq<ActorId> {
    if |s| == 0 then [x]
    else if priority(x) <= priority(s[0]) then [x] + s
    else [s[0]] + InsertByPriority(s[1..], x, priority)
  }

  /** The order PrioritySortWaterBodyArray leaves a body list in (an insertion sort). */
  function PrioritySorted(s: seq<ActorId>, priority: ActorId -> int): seq<ActorId> {
    if |s| == 0 then [] else InsertByPriority(PrioritySorted(s[1..], priority), s[0], priority)
  }

  lemma {:induction false} InsertByPriorityPermutes(s: seq<ActorId>, x: ActorId, priority: ActorId -> int)
    ensures multiset(InsertByPriority(s, x, priority)) == multiset(s) + multiset{x}
  {
    if |s| > 0 && priority(x) > priority(s[0]) {
      InsertByPriorityPermutes(s[1..], x, priority);
      assert s == [s[0]] + s[1..];
    }
  }

  /** Inserting keeps a lower bound that the list and the new body both respect. */
  lemma {:induction false} InsertByPriorityAbove(s: seq<ActorId>, x: ActorId, priority: ActorId -> int, p: int)
    requires forall k :: 0 <= k < |s| ==> p <= priority(s[k])
    requires p <= priority(x)
    ensures forall k :: 0 <= k < |InsertByPriority(s, x, priority)| ==> p <= priority(InsertByPriority(s, x, priority)[k])
  {
    if |s| > 0 && priority(x) > priority(s[0]) {
      var rest := InsertByPriority(s[1..], x, priority);
      InsertByPriorityAbove(s[1..], x, priority, p);
      forall k | 0 <= k < 1 + |rest|
        ensures p <= priority(([s[0]] + rest)[k])
      {
        if k > 0 {
          assert ([s[0]] + rest)[k] == rest[k - 1];
        } else {
          assert ([s[0]] + rest)[0] == s[0];
        }
      }
    }
  }

  /** Inserting into a sorted list keeps it sorted. */
  lemma {:induction false} InsertByPrioritySorted(s: seq<ActorId>, x: ActorId, priority: ActorId -> int)
    requires SortedBy(s, priority)
    ensures SortedBy(InsertByPriority(s, x, priority), priority)
  {
    if |s| > 0 && priority(x) > priority(s[0]) {
      var rest := InsertByPriority(s[1..], x, priority);
      InsertByPrioritySorted(s[1..], x, priority);
      InsertByPriorityAbove(s[1..], x, priority, priority(s[0]));
      var r := [s[0]] + rest;
      forall i, j | 0 <= i < j < |r|
        ensures priority(r[i]) <= priority(r[j])
      {
        assert r[j] == rest[j - 1];
        if i > 0 {
          assert r[i] == rest[i - 1];
        } else {
          assert r[0] == s[0] && priority(s[0]) <= priority(rest[j - 1]);
        }
      }
    }
  }

  lemma InsertByPriorityCorrect(s: seq<ActorId>, x: ActorId, priority: ActorId -> int)
    requires SortedBy(s, priority)
    ensures SortedBy(InsertByPriority(s, x, priority), priority)
    ensures multiset(InsertByPriority(s, x, priority)) == multiset(s) + multiset{x}
  {
    InsertByPrioritySorted(s, x, priority);
    InsertByPriorityPermutes(s, x, priority);
  }

  /** PrioritySorted returns a permutation of its input with non-decreasing priorities. */
  lemma {:induction false} PrioritySortedCorrect(s: seq<ActorId>, priority: ActorId -> int)
    ensures SortedBy(PrioritySorted(s, priority), priority)
    ensures multiset(PrioritySorted(s, priority)) == multiset(s)
  {
    if |s| > 0 {
      PrioritySortedCorrect(s[1..], priority);
      InsertByPriorityCorrect(PrioritySorted(s[1..], priority), s[0], priority);
      assert s == [s[0]] + s[1..];
    }
  }

  /** A sequence with no repeated element has count at most one for every value. */
  lemma {:induction false} DistinctCounts(s: seq<ActorId>, v: ActorId)
    requires Distinct(s)
    ensures multiset(s)[v] <= 1
  {
    if |s| > 0 {
      assert s == [s[0]] + s[1..];
      DistinctCounts(s[1..], v);
      if s[0] == v {
        assert v !in s[1..];
      }
    }
  }

  /** A permutation of a sequence without repeats has none either. */
  lemma PermutationKeepsDistinct(s: seq<ActorId>, t: seq<ActorId>)
    requires Distinct(s) && multiset(s) == multiset(t)
    ensures Distinct(t)
  {
    forall i, j | 0 <= i < j < |t|
      ensures t[i] != t[j]
    {
      if t[i] == t[j] {
        assert t == t[..j] + t[j..];
        assert t[i] in t[..j];
        assert t[j] in t[j..];
        assert multiset(t)[t[i]] >= 2;
        DistinctCounts(s, t[i]);
      }
    }
  }

  /** TArray::Remove: every occurrence of `x` dropped, the rest kept in order. */
  function Without(s: seq<ActorId>, x: ActorId): seq<ActorId> {
    if |s| == 0 then [] else (if s[0] == x then [] else [s[0]]) + Without(s[1..], x)
  }

  lemma {:induction false} WithoutCorrect(s: seq<ActorId>, x: ActorId, priority: ActorId -> int)
    ensures forall y :: y in Without(s, x) <==> y in s && y != x
    ensures SortedBy(s, priority) ==> SortedBy(Without(s, x), priority)
    ensures Distinct(s) ==> Distinct(Without(s, x))
  {
    WithoutMembers(s, x);
    if SortedBy(s, priority) {
      WithoutSorted(s, x, priority);
    }
    if Distinct(s) {
      WithoutDistinct(s, x);
    }
  }

  lemma {:induction false} WithoutMembers(s: seq<ActorId>, x: ActorId)
    ensures forall y :: y in Without(s, x) <==> y in s && y != x
  {
    if |s| > 0 {
      WithoutMembers(s[1..], x);
      assert s == [s[0]] + s[1..];
    }
  }

  lemma {:induction false} WithoutSorted(s: seq<ActorId>, x: ActorId, priority: ActorId -> int)
    requires SortedBy(s, priority)
    ensures SortedBy(Without(s, x), priority)
  {
    if |s| > 0 {
      WithoutSorted(s[1..], x, priority);
      WithoutMembers(s[1..], x);
      var rest := Without(s[1..], x);
      if s[0] != x {
        forall j | 0 <= j < |rest|
          ensures priority(s[0]) <= priority(rest[j])
        {
          assert rest[j] in s[1..];
          var k :| 0 <= k < |s[1..]| && s[1..][k] == rest[j];
          assert s[k + 1] == rest[j];
        }
      }
    }
  }

  lemma {:induction false} WithoutDistinct(s: seq<ActorId>, x: ActorId)
    requires Distinct(s)
    ensures Distinct(Without(s, x))
  {
    if |s| > 0 {
      WithoutDistinct(s[1..], x);
      WithoutMembers(s[1..], x);
      if s[0] != x {
        assert s[0] !in s[1..];
        assert s[0] !in Without(s[1..], x);
      }
    }
  }

  /** What BeginOverlap makes of an actor's body list: the body added once, then sorted. */
  function WithBodyEntered(list: seq<ActorId>, waterBody: ActorId, priority: ActorId -> int): seq<ActorId> {
    PrioritySorted(AddUnique(list, waterBody), priority)
  }

  /** After BeginOverlap the actor's list holds exactly its old bodies and the new one, each
      once, in priority order; it has a single body exactly when the new body is the only
      one the actor is in. */
  lemma WithBodyEnteredCorrect(list: seq<ActorId>, waterBody: ActorId, priority: ActorId -> int)
    requires Distinct(list)
    ensures var r := WithBodyEntered(list, waterBody, priority);
      (forall b :: b in r <==> b in list || b == waterBody) && SortedBy(r, priority) && Distinct(r)
    ensures |WithBodyEntered(list, waterBody, priority)| == 1 <==> list == [] || list == [waterBody]
  {
    var u := AddUnique(list, waterBody);
    PrioritySortedCorrect(u, priority);
    var r := PrioritySorted(u, priority);
    assert Distinct(u);
    PermutationKeepsDistinct(u, r);
    forall b
      ensures b in r <==> b in u
    {
      assert b in r <==> b in multiset(r);
      assert b in u <==> b in multiset(u);
    }
    assert |r| == |u| by {
      assert |multiset(r)| == |multiset(u)|;
    }
    if list != [] && list != [waterBody] {
      assert |u| >= 2 by {
        if |list| == 1 {
          assert list[0] != waterBody;
          assert u == list + [waterBody];
        }
      }
    }
  }

  /** Every (actor, body) membership of `small` is one of `big`. */
  predicate Includes(big: map<ActorId, seq<ActorId>>, small: map<ActorId, seq<ActorId>>) {
    forall a, b :: a in small && b in small[a] ==> a in big && b in big[a]
  }

  /** The actor lists after a begin-overlap of `waterBody` by `other`. */
  function EnteredLists(lists: map<ActorId, seq<ActorId>>, other: ActorId, waterBody: ActorId, priority: ActorId -> int): map<ActorId, seq<ActorId>> {
    var list := if other in lists then lists[other] else [];
    lists[other := WithBodyEntered(list, waterBody, priority)]
  }

  /** BeginOverlap keeps the lists well formed and only adds memberships: the new one and
      all the old ones. */
  lemma EnteredIncludes(lists: map<ActorId, seq<ActorId>>, other: ActorId, waterBody: ActorId, priority: ActorId -> int)
    requires ListsWellFormed(lists, priority)
    ensures var r := EnteredLists(lists, other, waterBody, priority);
      ListsWellFormed(r, priority) && Includes(r, lists) && other in r && waterBody in r[other]
  {
    var list := if other in lists then lists[other] else [];
    WithBodyEnteredCorrect(list, waterBody, priority);
  }

  /** The actor lists after begin-overlaps of `waterBody` by each of `others`, in order. */
  function EnteredAll(lists: map<ActorId, seq<ActorId>>, waterBody: ActorId, others: seq<ActorId>, priority: ActorId -> int): map<ActorId, seq<ActorId>> {
    if |others| == 0 then lists
    else EnteredLists(EnteredAll(lists, waterBody, others[..|others| - 1], priority), others[|others| - 1], waterBody, priority)
  }

  /** Begin-overlaps of one body for several actors keep the lists well formed, keep every
      old membership, and leave each of the actors with the body in its list. */
  lemma {:induction false} EnterAllIncludes(lists: map<ActorId, seq<ActorId>>, waterBody: ActorId, others: seq<ActorId>, priority: ActorId -> int)
    requires ListsWellFormed(lists, priority)
    ensures var r := EnteredAll(lists, waterBody, others, priority);
      ListsWellFormed(r, priority) && Includes(r, lists) && AllIn(r, waterBody, others)
    decreases |others|
  {
    if |others| > 0 {
      var front, last := others[..|others| - 1], others[|others| - 1];
      EnterAllIncludes(lists, waterBody, front, priority);
      var m := EnteredAll(lists, waterBody, front, priority);
      EnteredIncludes(m, last, waterBody, priority);
      var r := EnteredLists(m, last, waterBody, priority);
      IncludesTransitive(r, m, lists);
      IncludesKeepsAllIn(r, m, waterBody, front);
      forall j | 0 <= j < |others|
        ensures others[j] in r && waterBody in r[others[j]]
      {
        if j < |front| {
          assert others[j] == front[j];
        }
      }
    }
  }

  /** Each of `actors` has `waterBody` in its list. */
  predicate AllIn(lists: map<ActorId, seq<ActorId>>, waterBody: ActorId, actors: seq<ActorId>) {
    forall j :: 0 <= j < |actors| ==> actors[j] in lists && waterBody in lists[actors[j]]
  }

  lemma IncludesTransitive(a: map<ActorId, seq<ActorId>>, b: map<ActorId, seq<ActorId>>, c: map<ActorId, seq<ActorId>>)
    requires Includes(a, b) && Includes(b, c)
    ensures Includes(a, c)
  {
  }

  lemma IncludesKeepsAllIn(big: map<ActorId, seq<ActorId>>, small: map<ActorId, seq<ActorId>>, waterBody: ActorId, actors: seq<ActorId>)
    requires Includes(big, small) && AllIn(small, waterBody, actors)
    ensures AllIn(big, waterBody, actors)
  {
  }

  /** Every valid body among the first `k` of `waterBodies` is in the list of each actor it
      overlaps. */
  predicate Replayed(lists: map<ActorId, seq<ActorId>>, world: World, waterBodies: seq<ActorId>, overlapping: ActorId -> seq<ActorId>, k: nat) {
    forall k' :: 0 <= k' < k && k' < |waterBodies| && world.ActorValid(waterBodies[k']) ==>
      AllIn(lists, waterBodies[k'], overlapping(waterBodies[k']))
  }

  lemma IncludesKeepsReplayed(big: map<ActorId, seq<ActorId>>, small: map<ActorId, seq<ActorId>>, world: World,
                              waterBodies: seq<ActorId>, overlapping: ActorId -> seq<ActorId>, k: nat)
    requires Includes(big, small) && Replayed(small, world, waterBodies, overlapping, k)
    ensures Replayed(big, world, waterBodies, overlapping, k)
  {
    forall k' | 0 <= k' < k && k' < |waterBodies| && world.ActorValid(waterBodies[k'])
      ensures AllIn(big, waterBodies[k'], overlapping(waterBodies[k']))
    {
      IncludesKeepsAllIn(big, small, waterBodies[k'], overlapping(waterBodies[k']));
    }
  }

  /** The valid bodies among the first k + 1 are those among the first k and, if valid, the
      next one. */
  lemma BoundStep(world: World, waterBodies: seq<ActorId>, k: nat)
    requires k < |waterBodies|
    ensures (set b | b in waterBodies[..k + 1] && world.ActorValid(b)) ==
      (set b | b in waterBodies[..k] && world.ActorValid(b)) + (if world.ActorValid(waterBodies[k]) then {waterBodies[k]} else {})
  {
    assert waterBodies[..k + 1] == waterBodies[..k] + [waterBodies[k]];
  }

  /** A pending body removal: WaterBodiesToRemove entry. */
  datatype PendingBodyRemoval = PendingBodyRemoval(waterBody: ActorId, actor: ActorId, time: real)

  predicate SamePair(e: PendingBodyRemoval, waterBody: ActorId, actor: ActorId) {
    e.waterBody == waterBody && e.actor == actor
  }

  /** TArray::RemoveAll on the pending removals of one (body, actor) pair. */
  function WithoutPair(q: seq<PendingBodyRemoval>, waterBody: ActorId, actor: ActorId): seq<PendingBodyRemoval> {
    if |q| == 0 then []
    else (if SamePair(q[0], waterBody, actor) then [] else [q[0]]) + WithoutPair(q[1..], waterBody, actor)
  }

  /** RemoveAll keeps exactly the other entries, and removes none exactly when the pair had
      no pending removal. */
  lemma {:induction false} WithoutPairCorrect(q: seq<PendingBodyRemoval>, waterBody: ActorId, actor: ActorId)
    ensures forall e :: e in WithoutPair(q, waterBody, actor) <==> e in q && !SamePair(e, waterBody, actor)
    ensures |WithoutPair(q, waterBody, actor)| <= |q|
    ensures |WithoutPair(q, waterBody, actor)| == |q| <==> forall k :: 0 <= k < |q| ==> !SamePair(q[k], waterBody, actor)
  {
    if |q| > 0 {
      WithoutPairCorrect(q[1..], waterBody, actor);
      assert q == [q[0]] + q[1..];
      if forall k :: 0 <= k < |q[1..]| ==> !SamePair(q[1..][k], waterBody, actor) {
        forall k | 0 <= k < |q|
          ensures !SamePair(q[k], waterBody, actor) || k == 0
        {
          if k > 0 {
            assert q[k] == q[1..][k - 1];
          }
        }
      } else {
        var k :| 0 <= k < |q[1..]| && SamePair(q[1..][k], waterBody, actor);
        assert SamePair(q[k + 1], waterBody, actor);
      }
    }
  }

  /** Every body list is non-empty, sorted by priority and free of repeats. */
  predicate ListsWellFormed(lists: map<ActorId, seq<ActorId>>, priority: ActorId -> int) {
    forall a :: a in lists ==> |lists[a]| > 0 && SortedBy(lists[a], priority) && Distinct(lists[a])
  }

  /** The entries of `q` whose time runs out in a Tick of `deltaTime`, in order. */
  function Expired(q: seq<PendingBodyRemoval>, world: World, deltaTime: real): seq<PendingBodyRemoval> {
    if |q| == 0 then []
    else
      var e := q[|q| - 1];
      Expired(q[..|q| - 1], world, deltaTime) + (if world.ActorValid(e.actor) && e.time - deltaTime <= 0.0 then [e] else [])
  }

  lemma {:induction false} ExpiredAreValid(q: seq<PendingBodyRemoval>, world: World, deltaTime: real)
    ensures forall k :: 0 <= k < |Expired(q, world, deltaTime)| ==> world.ActorValid(Expired(q, world, deltaTime)[k].actor)
  {
    if |q| > 0 {
      ExpiredAreValid(q[..|q| - 1], world, deltaTime);
    }
  }

  /** Expiring the first i + 1 entries of `q`: the (i + 1)-th entry applies on top of the
      first i exactly when its actor is live and its time runs out. */
  lemma ExpireAllStep(o: ExpiryState, world: World, q: seq<PendingBodyRemoval>, i: nat, deltaTime: real)
    requires i < |q|
    ensures ExpireAll(o, world, Expired(q[..i + 1], world, deltaTime)) ==
      if world.ActorValid(q[i].actor) && q[i].time - deltaTime <= 0.0 then ExpireOne(ExpireAll(o, world, Expired(q[..i], world, deltaTime)), world, q[i])
      else ExpireAll(o, world, Expired(q[..i], world, deltaTime))
    ensures TickedQueue(q[..i + 1], world, deltaTime) == TickedQueue(q[..i], world, deltaTime) +
      (if world.ActorValid(q[i].actor) && q[i].time - deltaTime > 0.0 then [q[i].(time := q[i].time - deltaTime)] else [])
  {
    assert q[..i + 1][..i] == q[..i];
    var es := Expired(q[..i], world, deltaTime);
    if world.ActorValid(q[i].actor) && q[i].time - deltaTime <= 0.0 {
      var es' := es + [q[i]];
      assert Expired(q[..i + 1], world, deltaTime) == es';
      assert es'[..|es'| - 1] == es && es'[|es'| - 1] == q[i];
    } else {
      assert Expired(q[..i + 1], world, deltaTime) == es;
    }
  }

  /** The entries a Tick keeps: those of live actors with time left, counted down. */
  function TickedQueue(q: seq<PendingBodyRemoval>, world: World, deltaTime: real): seq<PendingBodyRemoval> {
    if |q| == 0 then []
    else
      var e := q[|q| - 1];
      TickedQueue(q[..|q| - 1], world, deltaTime) +
        (if world.ActorValid(e.actor) && e.time - deltaTime > 0.0 then [e.(time := e.time - deltaTime)] else [])
  }

  /** The body lists and the water-physics actor's state as expired entries are applied. */
  datatype ExpiryState = ExpiryState(lists: map<ActorId, seq<ActorId>>, actorState: ActorState)

  /** One expired entry: the body leaves the actor's list; an actor left with no body loses
      its entry and is removed from the water at once. */
  function ExpireOne(o: ExpiryState, world: World, e: PendingBodyRemoval): ExpiryState {
    if e.actor !in o.lists then o
    else
      var rest := Without(o.lists[e.actor], e.waterBody);
      if |rest| == 0 then ExpiryState(o.lists - {e.actor}, AfterRemove(o.actorState, world, e.actor, -1.0))
      else ExpiryState(o.lists[e.actor := rest], o.actorState)
  }

  function ExpireAll(o: ExpiryState, world: World, es: seq<PendingBodyRemoval>): ExpiryState {
    if |es| == 0 then o else ExpireOne(ExpireAll(o, world, es[..|es| - 1]), world, es[|es| - 1])
  }

  /** Expiring entries only appends notices, each the removal of an actor whose list
      emptied. */
  lemma {:induction false} ExpireAllAppendsNotices(o: ExpiryState, world: World, es: seq<PendingBodyRemoval>)
    ensures var r := ExpireAll(o, world, es); r.lists.Keys <= o.lists.Keys
    ensures var r, n := ExpireAll(o, world, es), |o.actorState.notices|;
      |r.actorState.notices| >= n && r.actorState.notices[..n] == o.actorState.notices &&
      forall k :: n <= k < |r.actorState.notices| ==>
        r.actorState.notices[k].RemovedFromWater? && r.actorState.notices[k].actor in o.lists.Keys - r.lists.Keys
    decreases |es|
  {
    if |es| > 0 {
      var m := ExpireAll(o, world, es[..|es| - 1]);
      ExpireAllAppendsNotices(o, world, es[..|es| - 1]);
      var r := ExpireAll(o, world, es);
      assert r == ExpireOne(m, world, es[|es| - 1]);
      var n, nm := |o.actorState.notices|, |m.actorState.notices|;
      assert r.actorState.notices[..nm] == m.actorState.notices;
      assert r.actorState.notices[..n] == m.actorState.notices[..n];
    }
  }

  /** The components of the actors in `actors`. */
  function ComponentsOfActors(world: World, actors: set<ActorId>): set<ComponentId> {
    set a, c | a in actors && c in world.ComponentsOf(a) :: c
  }

  /** Expiring entries keeps the lists well formed; an actor keeps an entry only if it had one;
      a body leaves an actor's list exactly when an expired entry names that pair; and the
      water-physics registry loses exactly the components of the actors whose list emptied,
      while the pending actor removals are untouched. */
  lemma {:induction false} ExpireAllEffect(o: ExpiryState, world: World, es: seq<PendingBodyRemoval>, priority: ActorId -> int)
    requires ListsWellFormed(o.lists, priority)
    requires forall k :: 0 <= k < |es| ==> world.ActorValid(es[k].actor)
    ensures var r := ExpireAll(o, world, es);
      ListsWellFormed(r.lists, priority) && r.lists.Keys <= o.lists.Keys &&
      r.actorState.bodies == o.actorState.bodies - ComponentsOfActors(world, o.lists.Keys - r.lists.Keys) &&
      r.actorState.actorsToRemove == o.actorState.actorsToRemove
    ensures var r := ExpireAll(o, world, es);
      forall a, b :: a in r.lists && b in r.lists[a] <==>
        a in o.lists && b in o.lists[a] && forall k :: 0 <= k < |es| ==> !SamePair(es[k], b, a)
    decreases |es|
  {
    if |es| > 0 {
      var prefix, e := es[..|es| - 1], es[|es| - 1];
      ExpireAllEffect(o, world, prefix, priority);
      var m := ExpireAll(o, world, prefix);
      ExpireOneEffect(m, world, e, priority);
      var r := ExpireAll(o, world, es);
      assert r == ExpireOne(m, world, e);
      assert o.lists.Keys - r.lists.Keys == (o.lists.Keys - m.lists.Keys) + (m.lists.Keys - r.lists.Keys);
      ComponentsOfActorsUnion(world, o.lists.Keys - m.lists.Keys, m.lists.Keys - r.lists.Keys);
      forall a, b
        ensures a in r.lists && b in r.lists[a] <==>
          a in o.lists && b in o.lists[a] && forall k :: 0 <= k < |es| ==> !SamePair(es[k], b, a)
      {
        if forall k :: 0 <= k < |prefix| ==> !SamePair(prefix[k], b, a) {
          if !SamePair(e, b, a) {
            forall k | 0 <= k < |es|
              ensures !SamePair(es[k], b, a)
            {
              if k < |prefix| {
                assert es[k] == prefix[k];
              }
            }
          }
        } else {
          var k :| 0 <= k < |prefix| && SamePair(prefix[k], b, a);
          assert es[k] == prefix[k];
        }
      }
    }
  }

  lemma ComponentsOfActorsUnion(world: World, d1: set<ActorId>, d2: set<ActorId>)
    ensures ComponentsOfActors(world, d1 + d2) == ComponentsOfActors(world, d1) + ComponentsOfActors(world, d2)
  {
  }

  lemma ExpireOneEffect(o: ExpiryState, world: World, e: PendingBodyRemoval, priority: ActorId -> int)
    requires ListsWellFormed(o.lists, priority) && world.ActorValid(e.actor)
    ensures var r := ExpireOne(o, world, e);
      ListsWellFormed(r.lists, priority) && r.lists.Keys <= o.lists.Keys &&
      r.actorState.bodies == o.actorState.bodies - ComponentsOfActors(world, o.lists.Keys - r.lists.Keys) &&
      r.actorState.actorsToRemove == o.actorState.actorsToRemove
    ensures var r := ExpireOne(o, world, e);
      forall a, b :: a in r.lists && b in r.lists[a] <==> a in o.lists && b in o.lists[a] && !SamePair(e, b, a)
  {
    if e.actor in o.lists {
      var rest := Without(o.lists[e.actor], e.waterBody);
      WithoutCorrect(o.lists[e.actor], e.waterBody, priority);
      var r := ExpireOne(o, world, e);
      if |rest| == 0 {
        assert o.lists.Keys - r.lists.Keys == {e.actor};
        assert ComponentsOfActors(world, {e.actor}) == Elements(world.ComponentsOf(e.actor));
        assert rest == [];
      } else {
        assert o.lists.Keys - r.lists.Keys == {};
      }
    }
  }

  /** The state a begin-overlap changes: the actors' body lists, the pending body removals
      and the water-physics actor's state. */
  datatype BodyState = BodyState(lists: map<ActorId, seq<ActorId>>, queue: seq<PendingBodyRemoval>, actorState: ActorState)

  /** OnActorBeginOverlapWaterBody on a state: the body joins the actor's list once, in
      priority order; the pair's pending removals are cancelled; and the actor is added to
      the water only if none was pending and this body is its only one. */
  function AfterEnter(s: BodyState, world: World, waterBody: ActorId, other: ActorId, priority: ActorId -> int,
                             filters: seq<WaterPhysicsFilter>, settingsData: map<ComponentId, WaterPhysicsSettingsComponent>,
                             excludeClasses: seq<ClassId>, blueprintFilter: ActorId -> bool): BodyState
    requires SettingsKnown(world, settingsData, other)
  {
    var list := if other in s.lists then s.lists[other] else [];
    var adds := (forall k :: 0 <= k < |s.queue| ==> !SamePair(s.queue[k], waterBody, other)) &&
      (list == [] || list == [waterBody]);
    BodyState(EnteredLists(s.lists, other, waterBody, priority),
              WithoutPair(s.queue, waterBody, other),
              if adds then AfterAdd(s.actorState, world, other, filters, settingsData, excludeClasses, blueprintFilter)
              else s.actorState)
  }

  /** The begin-overlap of `waterBody` for each of `others`, in order. */
  function AfterEnterAll(s: BodyState, world: World, waterBody: ActorId, others: seq<ActorId>, priority: ActorId -> int,
                              filters: seq<WaterPhysicsFilter>, settingsData: map<ComponentId, WaterPhysicsSettingsComponent>,
                              excludeClasses: seq<ClassId>, blueprintFilter: ActorId -> bool): BodyState
    requires forall k :: 0 <= k < |others| ==> SettingsKnown(world, settingsData, others[k])
  {
    if |others| == 0 then s
    else AfterEnter(AfterEnterAll(s, world, waterBody, others[..|others| - 1], priority, filters, settingsData, excludeClasses, blueprintFilter),
                           world, waterBody, others[|others| - 1], priority, filters, settingsData, excludeClasses, blueprintFilter)
  }

  /** BeginPlay's replay: for each valid body of `waterBodies`, in order, the begin-overlaps
      of the actors it overlaps; an invalid body is skipped. */
  function AfterReplay(s: BodyState, world: World, waterBodies: seq<ActorId>, overlapping: ActorId -> seq<ActorId>,
                       priority: ActorId -> int, filters: seq<WaterPhysicsFilter>,
                       settingsData: map<ComponentId, WaterPhysicsSettingsComponent>, excludeClasses: seq<ClassId>,
                       blueprintFilter: ActorId -> bool): BodyState
    requires forall k, j :: 0 <= k < |waterBodies| && 0 <= j < |overlapping(waterBodies[k])| ==>
      SettingsKnown(world, settingsData, overlapping(waterBodies[k])[j])
  {
    if |waterBodies| == 0 then s
    else
      var prev := AfterReplay(s, world, waterBodies[..|waterBodies| - 1], overlapping, priority, filters, settingsData, excludeClasses, blueprintFilter);
      var b := waterBodies[|waterBodies| - 1];
      if world.ActorValid(b) then AfterEnterAll(prev, world, b, overlapping(b), priority, filters, settingsData, excludeClasses, blueprintFilter)
      else prev
  }

  /** The lists AfterEnterAll leaves are those of the begin-overlaps alone. */
  lemma {:induction false} EnterAllLists(s: BodyState, world: World, waterBody: ActorId, others: seq<ActorId>, priority: ActorId -> int,
                       filters: seq<WaterPhysicsFilter>, settingsData: map<ComponentId, WaterPhysicsSettingsComponent>,
                       excludeClasses: seq<ClassId>, blueprintFilter: ActorId -> bool)
    requires forall k :: 0 <= k < |others| ==> SettingsKnown(world, settingsData, others[k])
    ensures AfterEnterAll(s, world, waterBody, others, priority, filters, settingsData, excludeClasses, blueprintFilter).lists ==
      EnteredAll(s.lists, waterBody, others, priority)
    decreases |others|
  {
    if |others| > 0 {
      EnterAllLists(s, world, waterBody, others[..|others| - 1], priority, filters, settingsData, excludeClasses, blueprintFilter);
    }
  }

  /** A state whose lists, queue and actor state are each what a begin-overlap leaves is
      the state AfterEnter describes. */
  lemma EnterParts(s: BodyState, r: BodyState, world: World, waterBody: ActorId, other: ActorId, priority: ActorId -> int,
                   filters: seq<WaterPhysicsFilter>, settingsData: map<ComponentId, WaterPhysicsSettingsComponent>,
                   excludeClasses: seq<ClassId>, blueprintFilter: ActorId -> bool)
    requires SettingsKnown(world, settingsData, other)
    requires var list := if other in s.lists then s.lists[other] else [];
      r.lists == s.lists[other := WithBodyEntered(list, waterBody, priority)]
    requires r.queue == WithoutPair(s.queue, waterBody, other)
    requires var list := if other in s.lists then s.lists[other] else [];
      var adds := (forall k :: 0 <= k < |s.queue| ==> !SamePair(s.queue[k], waterBody, other)) &&
        (list == [] || list == [waterBody]);
      r.actorState == if adds then AfterAdd(s.actorState, world, other, filters, settingsData, excludeClasses, blueprintFilter)
                      else s.actorState
    ensures r == AfterEnter(s, world, waterBody, other, priority, filters, settingsData, excludeClasses, blueprintFilter)
  {
  }

  /** One more actor of the replay of one body: its begin-overlap. */
  lemma EnterAllStep(s: BodyState, world: World, waterBody: ActorId, others: seq<ActorId>, j: nat, priority: ActorId -> int,
                     filters: seq<WaterPhysicsFilter>, settingsData: map<ComponentId, WaterPhysicsSettingsComponent>,
                     excludeClasses: seq<ClassId>, blueprintFilter: ActorId -> bool)
    requires j < |others| && forall k :: 0 <= k < |others| ==> SettingsKnown(world, settingsData, others[k])
    ensures AfterEnterAll(s, world, waterBody, others[..j + 1], priority, filters, settingsData, excludeClasses, blueprintFilter) ==
      AfterEnter(AfterEnterAll(s, world, waterBody, others[..j], priority, filters, settingsData, excludeClasses, blueprintFilter),
                 world, waterBody, others[j], priority, filters, settingsData, excludeClasses, blueprintFilter)
  {
    assert others[..j + 1][..j] == others[..j];
  }

  /** One more body of BeginPlay's replay: its begin-overlaps if it is valid, nothing if not. */
  lemma ReplayStep(s: BodyState, world: World, waterBodies: seq<ActorId>, overlapping: ActorId -> seq<ActorId>, k: nat,
                   priority: ActorId -> int, filters: seq<WaterPhysicsFilter>,
                   settingsData: map<ComponentId, WaterPhysicsSettingsComponent>, excludeClasses: seq<ClassId>,
                   blueprintFilter: ActorId -> bool)
    requires k < |waterBodies|
    requires forall k', j :: 0 <= k' < |waterBodies| && 0 <= j < |overlapping(waterBodies[k'])| ==>
      SettingsKnown(world, settingsData, overlapping(waterBodies[k'])[j])
    ensures var prev := AfterReplay(s, world, waterBodies[..k], overlapping, priority, filters, settingsData, excludeClasses, blueprintFilter);
      AfterReplay(s, world, waterBodies[..k + 1], overlapping, priority, filters, settingsData, excludeClasses, blueprintFilter) ==
      if world.ActorValid(waterBodies[k])
      then AfterEnterAll(prev, world, waterBodies[k], overlapping(waterBodies[k]), priority, filters, settingsData, excludeClasses, blueprintFilter)
      else prev
  {
    assert waterBodies[..k + 1][..k] == waterBodies[..k];
  }

  /** The replay keeps the lists well formed, keeps every old membership, and leaves each
      valid body in the list of every actor it overlaps. */
  lemma {:induction false} ReplayIncludes(s: BodyState, world: World, waterBodies: seq<ActorId>, overlapping: ActorId -> seq<ActorId>,
                                          priority: ActorId -> int,
                       filters: seq<WaterPhysicsFilter>, settingsData: map<ComponentId, WaterPhysicsSettingsComponent>,
                       excludeClasses: seq<ClassId>, blueprintFilter: ActorId -> bool)
    requires forall k, j :: 0 <= k < |waterBodies| && 0 <= j < |overlapping(waterBodies[k])| ==>
      SettingsKnown(world, settingsData, overlapping(waterBodies[k])[j])
    requires ListsWellFormed(s.lists, priority)
    ensures var r := AfterReplay(s, world, waterBodies, overlapping, priority, filters, settingsData, excludeClasses, blueprintFilter);
      ListsWellFormed(r.lists, priority) && Includes(r.lists, s.lists) &&
      Replayed(r.lists, world, waterBodies, overlapping, |waterBodies|)
    decreases |waterBodies|
  {
    if |waterBodies| > 0 {
      var front, b := waterBodies[..|waterBodies| - 1], waterBodies[|waterBodies| - 1];
      ReplayIncludes(s, world, front, overlapping, priority, filters, settingsData, excludeClasses, blueprintFilter);
      var m := AfterReplay(s, world, front, overlapping, priority, filters, settingsData, excludeClasses, blueprintFilter);
      var r := AfterReplay(s, world, waterBodies, overlapping, priority, filters, settingsData, excludeClasses, blueprintFilter);
      if world.ActorValid(b) {
        EnterAllLists(m, world, b, overlapping(b), priority, filters, settingsData, excludeClasses, blueprintFilter);
        EnterAllIncludes(m.lists, b, overlapping(b), priority);
      }
      IncludesTransitive(r.lists, m.lists, s.lists);
      IncludesKeepsReplayed(r.lists, m.lists, world, front, overlapping, |front|);
      forall k | 0 <= k < |waterBodies| && world.ActorValid(waterBodies[k])
        ensures AllIn(r.lists, waterBodies[k], overlapping(waterBodies[k]))
      {
        if k < |front| {
          assert waterBodies[k] == front[k];
        }
      }
    }
  }

  /** AWaterPhysics_WaterBodyBase. The water-physics actor it extends is `base`; the
      overridable priority and water-information functions are fixed at construction. */
  class WaterBodyBase {
    const base: WaterPhysicsActor
    /** GetWaterBodyPriority. */
    const priority: ActorId -> int
    /** ActorCurrentWaterBodies: for each simulated actor, the bodies it is in. */
    var actorCurrentWaterBodies: map<ActorId, seq<ActorId>>
    /** WaterBodiesToRemove. */
    var waterBodiesToRemove: seq<PendingBodyRemoval>
    /** The bodies whose overlap events are bound to this actor. */
    var boundBodies: set<ActorId>
    /** bBPOverridesCalculateWaterInfoForWaterBody. */
    var scriptOverridesWaterInfo: bool

    ghost predicate Valid()
      reads this, base, base.sceneComponent, base.sceneComponent.scene
    {
      base.Valid() && ListsWellFormed(actorCurrentWaterBodies, priority)
    }

    function Snapshot(): BodyState
      reads this, base, base.sceneComponent.scene
    {
      BodyState(actorCurrentWaterBodies, waterBodiesToRemove, base.State())
    }

    constructor(priority: ActorId -> int)
      ensures Valid() && fresh(base) && fresh(base.sceneComponent) && fresh(base.sceneComponent.scene)
      ensures this.priority == priority && base.State() == ActorState(map[], map[], {}, []) && base.filters == []
      ensures actorCurrentWaterBodies == map[] && waterBodiesToRemove == [] && boundBodies == {} && !scriptOverridesWaterInfo
    {
      base := new WaterPhysicsActor();
      this.priority := priority;
      actorCurrentWaterBodies := map[];
      waterBodiesToRemove := [];
      boundBodies := {};
      scriptOverridesWaterInfo := false;
    }

    /** OnActorBeginOverlapWaterBody. The body joins the actor's list (once) and the list is
        re-sorted; pending removals of this (body, actor) pair are cancelled; the actor is
        added to the water only if none was pending and this is its only body. */
    method OnActorBeginOverlapWaterBody(world: World, waterBody: ActorId, other: ActorId,
                                        settingsData: map<ComponentId, WaterPhysicsSettingsComponent>, excludeClasses: seq<ClassId>,
                                        blueprintFilter: ActorId -> bool)
      requires Valid() && SettingsKnown(world, settingsData, other)
      modifies this`actorCurrentWaterBodies, this`waterBodiesToRemove, base, base.sceneComponent.scene
      ensures Valid() && base.filters == old(base.filters)
      ensures var list := if other in old(actorCurrentWaterBodies) then old(actorCurrentWaterBodies)[other] else [];
        actorCurrentWaterBodies == old(actorCurrentWaterBodies)[other := WithBodyEntered(list, waterBody, priority)]
      ensures waterBodiesToRemove == WithoutPair(old(waterBodiesToRemove), waterBody, other)
      ensures var list := if other in old(actorCurrentWaterBodies) then old(actorCurrentWaterBodies)[other] else [];
        var adds := (forall k :: 0 <= k < |old(waterBodiesToRemove)| ==> !SamePair(old(waterBodiesToRemove)[k], waterBody, other)) &&
          (list == [] || list == [waterBody]);
        base.State() == if adds then AfterAdd(old(base.State()), world, other, base.filters, settingsData, excludeClasses, blueprintFilter)
                        else old(base.State())
      ensures Snapshot() ==
        AfterEnter(old(Snapshot()), world, waterBody, other, priority, base.filters, settingsData, excludeClasses, blueprintFilter)
    {
      var list := if other in actorCurrentWaterBodies then actorCurrentWaterBodies[other] else [];
      WithBodyEnteredCorrect(list, waterBody, priority);
      list := AddUnique(list, waterBody);
      list := PrioritySorted(list, priority);
      actorCurrentWaterBodies := actorCurrentWaterBodies[other := list];
      WithoutPairCorrect(waterBodiesToRemove, waterBody, other);
      var before := |waterBodiesToRemove|;
      waterBodiesToRemove := WithoutPair(waterBodiesToRemove, waterBody, other);
      var removedNum := before - |waterBodiesToRemove|;
      if removedNum == 0 && |list| == 1 {
        base.AddActorToWater(world, other, settingsData, excludeClasses, blueprintFilter);
      }
      EnterParts(old(Snapshot()), Snapshot(), world, waterBody, other, priority, base.filters, settingsData, excludeClasses, blueprintFilter);
    }

    /** BeginPlay: for each valid water body, binds its overlap events and replays a
        begin-overlap for every actor it already overlaps (`overlapping` is the engine's
        overlap query); afterwards each of those actors has that body in its list. */
    method BeginPlay(world: World, waterBodies: seq<ActorId>, overlapping: ActorId -> seq<ActorId>, scriptOverrides: bool,
                     settingsData: map<ComponentId, WaterPhysicsSettingsComponent>, excludeClasses: seq<ClassId>,
                     blueprintFilter: ActorId -> bool)
      requires Valid()
      requires forall k, j :: 0 <= k < |waterBodies| && 0 <= j < |overlapping(waterBodies[k])| ==>
        SettingsKnown(world, settingsData, overlapping(waterBodies[k])[j])
      modifies this`scriptOverridesWaterInfo, this`boundBodies, this`actorCurrentWaterBodies, this`waterBodiesToRemove,
               base, base.sceneComponent.scene
      ensures Valid() && scriptOverridesWaterInfo == scriptOverrides
      ensures boundBodies == old(boundBodies) + set b | b in waterBodies && world.ActorValid(b)
      ensures Includes(actorCurrentWaterBodies, old(actorCurrentWaterBodies))
      ensures Replayed(actorCurrentWaterBodies, world, waterBodies, overlapping, |waterBodies|)
      ensures base.filters == old(base.filters)
      ensures Snapshot() ==
        AfterReplay(old(Snapshot()), world, waterBodies, overlapping, priority, base.filters, settingsData, excludeClasses, blueprintFilter)
    {
      ghost var start := Snapshot();
      scriptOverridesWaterInfo := scriptOverrides;
      var k := 0;
      while k < |waterBodies|
        invariant 0 <= k <= |waterBodies|
        invariant Valid() && scriptOverridesWaterInfo == scriptOverrides
        invariant boundBodies == old(boundBodies) + set b | b in waterBodies[..k] && world.ActorValid(b)
        invariant base.filters == old(base.filters)
        invariant Snapshot() ==
          AfterReplay(old(Snapshot()), world, waterBodies[..k], overlapping, priority, base.filters, settingsData, excludeClasses, blueprintFilter)
      {
        BindWaterBody(world, waterBodies[k], overlapping(waterBodies[k]), settingsData, excludeClasses, blueprintFilter);
        BoundStep(world, waterBodies, k);
        ReplayStep(old(Snapshot()), world, waterBodies, overlapping, k, priority, base.filters, settingsData, excludeClasses, blueprintFilter);
        k := k + 1;
      }
      assert waterBodies[..k] == waterBodies;
      ReplayIncludes(start, world, waterBodies, overlapping, priority, base.filters, settingsData, excludeClasses, blueprintFilter);
    }

    /** One step of BeginPlay's loop: a valid water body is bound and its current overlaps are
        replayed; an invalid one is skipped. */
    method BindWaterBody(world: World, waterBody: ActorId, actors: seq<ActorId>,
                         settingsData: map<ComponentId, WaterPhysicsSettingsComponent>, excludeClasses: seq<ClassId>,
                         blueprintFilter: ActorId -> bool)
      requires Valid() && forall j :: 0 <= j < |actors| ==> SettingsKnown(world, settingsData, actors[j])
      modifies this`boundBodies, this`actorCurrentWaterBodies, this`waterBodiesToRemove, base, base.sceneComponent.scene
      ensures Valid() && Includes(actorCurrentWaterBodies, old(actorCurrentWaterBodies))
      ensures boundBodies == old(boundBodies) + (if world.ActorValid(waterBody) then {waterBody} else {})
      ensures world.ActorValid(waterBody) ==> AllIn(actorCurrentWaterBodies, waterBody, actors)
      ensures base.filters == old(base.filters)
      ensures Snapshot() == if world.ActorValid(waterBody)
        then AfterEnterAll(old(Snapshot()), world, waterBody, actors, priority, base.filters, settingsData, excludeClasses, blueprintFilter)
        else old(Snapshot())
    {
      if world.ActorValid(waterBody) {
        boundBodies := boundBodies + {waterBody};
        ReplayOverlaps(world, waterBody, actors, settingsData, excludeClasses, blueprintFilter);
      }
    }

    /** The inner loop of BeginPlay: a begin-overlap of `waterBody` for each of `actors`. */
    method ReplayOverlaps(world: World, waterBody: ActorId, actors: seq<ActorId>,
                          settingsData: map<ComponentId, WaterPhysicsSettingsComponent>, excludeClasses: seq<ClassId>,
                          blueprintFilter: ActorId -> bool)
      requires Valid() && forall j :: 0 <= j < |actors| ==> SettingsKnown(world, settingsData, actors[j])
      modifies this`actorCurrentWaterBodies, this`waterBodiesToRemove, base, base.sceneComponent.scene
      ensures Valid() && Includes(actorCurrentWaterBodies, old(actorCurrentWaterBodies))
      ensures AllIn(actorCurrentWaterBodies, waterBody, actors)
      ensures base.filters == old(base.filters)
      ensures Snapshot() ==
        AfterEnterAll(old(Snapshot()), world, waterBody, actors, priority, base.filters, settingsData, excludeClasses, blueprintFilter)
    {
      ghost var start := Snapshot();
      var j := 0;
      while j < |actors|
        invariant 0 <= j <= |actors|
        invariant Valid() && base.filters == old(base.filters)
        invariant Snapshot() ==
          AfterEnterAll(old(Snapshot()), world, waterBody, actors[..j], priority, base.filters, settingsData, excludeClasses, blueprintFilter)
      {
        OnActorBeginOverlapWaterBody(world, waterBody, actors[j], settingsData, excludeClasses, blueprintFilter);
        EnterAllStep(old(Snapshot()), world, waterBody, actors, j, priority, base.filters, settingsData, excludeClasses, blueprintFilter);
        j := j + 1;
      }
      assert actors[..j] == actors;
      EnterAllLists(start, world, waterBody, actors, priority, base.filters, settingsData, excludeClasses, blueprintFilter);
      EnterAllIncludes(start.lists, waterBody, actors, priority);
    }

    /** OnActorEndOverlapWaterBody: only queues the body's removal after the delay and
        re-sorts the actor's list; which bodies the actor is in does not change. */
    method OnActorEndOverlapWaterBody(waterBody: ActorId, other: ActorId)
      requires Valid()
      modifies this`actorCurrentWaterBodies, this`waterBodiesToRemove
      ensures Valid()
      ensures waterBodiesToRemove == old(waterBodiesToRemove) + [PendingBodyRemoval(waterBody, other, EndOverlapRemoveDelay)]
      ensures actorCurrentWaterBodies.Keys == old(actorCurrentWaterBodies).Keys
      ensures forall a :: a in actorCurrentWaterBodies ==>
        multiset(actorCurrentWaterBodies[a]) == multiset(old(actorCurrentWaterBodies)[a])
    {
      waterBodiesToRemove := waterBodiesToRemove + [PendingBodyRemoval(waterBody, other, EndOverlapRemoveDelay)];
      if other in actorCurrentWaterBodies {
        var list := actorCurrentWaterBodies[other];
        PrioritySortedCorrect(list, priority);
        PermutationKeepsDistinct(list, PrioritySorted(list, priority));
        actorCurrentWaterBodies := actorCurrentWaterBodies[other := PrioritySorted(list, priority)];
      }
    }

    /** The body-removal part of Tick: entries of actors that are gone are dropped; the
        others are counted down, and an entry whose time runs out takes its body out of the
        actor's list, removing the actor from the water when that was its last body. */
    method ExpireWaterBodies(world: World, deltaTime: real)
      requires Valid()
      modifies this`actorCurrentWaterBodies, this`waterBodiesToRemove, base, base.sceneComponent.scene
      ensures Valid() && base.filters == old(base.filters)
      ensures var r := ExpireAll(ExpiryState(old(actorCurrentWaterBodies), old(base.State())), world,
                                 Expired(old(waterBodiesToRemove), world, deltaTime));
        actorCurrentWaterBodies == r.lists && base.State() == r.actorState
      ensures waterBodiesToRemove == TickedQueue(old(waterBodiesToRemove), world, deltaTime)
    {
      var q := waterBodiesToRemove;
      ghost var start := ExpiryState(actorCurrentWaterBodies, base.State());
      var kept := [];
      var i := 0;
      while i < |q|
        invariant 0 <= i <= |q|
        invariant Valid() && base.filters == old(base.filters)
        invariant kept == TickedQueue(q[..i], world, deltaTime)
        invariant ExpiryState(actorCurrentWaterBodies, base.State()) == ExpireAll(start, world, Expired(q[..i], world, deltaTime))
      {
        ExpireAllStep(start, world, q, i, deltaTime);
        var e := q[i];
        if world.ActorValid(e.actor) {
          var time := e.time - deltaTime;
          if time <= 0.0 {
            ExpireEntry(world, e);
          } else {
            kept := kept + [e.(time := time)];
          }
        }
        i := i + 1;
      }
      assert q[..i] == q;
      waterBodiesToRemove := kept;
    }

    /** One expired entry of ExpireWaterBodies. */
    method ExpireEntry(world: World, e: PendingBodyRemoval)
      requires Valid() && world.ActorValid(e.actor)
      modifies this`actorCurrentWaterBodies, base, base.sceneComponent.scene
      ensures Valid() && base.filters == old(base.filters)
      ensures ExpiryState(actorCurrentWaterBodies, base.State()) == ExpireOne(ExpiryState(old(actorCurrentWaterBodies), old(base.State())), world, e)
    {
      ExpireOneEffect(ExpiryState(actorCurrentWaterBodies, base.State()), world, e, priority);
      if e.actor in actorCurrentWaterBodies {
        var rest := Without(actorCurrentWaterBodies[e.actor], e.waterBody);
        if |rest| == 0 {
          actorCurrentWaterBodies := actorCurrentWaterBodies - {e.actor};
          base.RemoveActorFromWater(world, e.actor, -1.0);
        } else {
          actorCurrentWaterBodies := actorCurrentWaterBodies[e.actor := rest];
        }
      }
    }

    /** Tick: the water-physics actor's own Tick, then the expiry of body removals. */
    method Tick(world: World, deltaTime: real) returns (ghost mid: ActorState)
      requires Valid()
      modifies this`actorCurrentWaterBodies, this`waterBodiesToRemove, base, base.sceneComponent.scene
      ensures Valid() && base.filters == old(base.filters)
      ensures waterBodiesToRemove == TickedQueue(old(waterBodiesToRemove), world, deltaTime)
      ensures var pending := old(base.actorsToRemove);
        mid.actorsToRemove == TickedPending(pending, world, deltaTime, pending.Keys) &&
        mid.bodies == old(base.sceneComponent.scene.bodies) - DueComponents(pending, world, deltaTime, pending.Keys) &&
        mid.subscriptions == old(base.subscriptions) - SettingsSubscriptions(pending, world, deltaTime, pending.Keys)
      ensures |mid.notices| >= |old(base.notices)| && mid.notices[..|old(base.notices)|] == old(base.notices)
      ensures DueRemovals(old(base.actorsToRemove), world, deltaTime, mid.notices[|old(base.notices)|..])
      ensures NoRepeats(mid.notices[|old(base.notices)|..])
      ensures forall k :: |old(base.notices)| <= k < |mid.notices| ==>
        mid.notices[k].actor in DueRegistered(old(base.actorsToRemove), world, deltaTime, old(base.sceneComponent.scene.bodies))
      ensures world.SingleOwners() ==>
        forall a :: a in DueRegistered(old(base.actorsToRemove), world, deltaTime, old(base.sceneComponent.scene.bodies)) ==>
          RemovedFromWater(a) in mid.notices[|old(base.notices)|..]
      ensures world.SingleOwners() ==>
        |mid.notices| - |old(base.notices)| == |DueRegistered(old(base.actorsToRemove), world, deltaTime, old(base.sceneComponent.scene.bodies))|
      ensures ExpiryState(actorCurrentWaterBodies, base.State()) ==
        ExpireAll(ExpiryState(old(actorCurrentWaterBodies), mid), world, Expired(old(waterBodiesToRemove), world, deltaTime))
      ensures |base.notices| >= |mid.notices| && base.notices[..|mid.notices|] == mid.notices
      ensures forall k :: |mid.notices| <= k < |base.notices| ==>
        base.notices[k].RemovedFromWater? && base.notices[k].actor in old(actorCurrentWaterBodies).Keys - actorCurrentWaterBodies.Keys
      ensures |base.notices| >= |old(base.notices)| && base.notices[..|old(base.notices)|] == old(base.notices)
    {
      base.Tick(world, deltaTime);
      mid := base.State();
      ExpireWaterBodies(world, deltaTime);
      ExpireAllAppendsNotices(ExpiryState(old(actorCurrentWaterBodies), mid), world, Expired(old(waterBodiesToRemove), world, deltaTime));
      assert base.notices[..|old(base.notices)|] == base.notices[..|mid.notices|][..|old(base.notices)|];
    }

    /** CalculateWaterInfo: the owner's first (highest-priority) body answers, through the
        Blueprint override when the class has one; an actor in no body gets the default. */
    function CalculateWaterInfo(world: World, component: ComponentId, location: Vec3,
                                scriptInfo: (ActorId, ComponentId, Vec3) -> WaterInfoResult,
                                nativeInfo: (ActorId, ComponentId, Vec3) -> WaterInfoResult): (r: WaterInfoResult)
      requires Valid() && component in world.components
      reads this, base, base.sceneComponent, base.sceneComponent.scene
      ensures var owner := world.components[component].owner;
        owner !in actorCurrentWaterBodies ==> r == DefaultWaterInfo
      ensures var owner := world.components[component].owner;
        owner in actorCurrentWaterBodies ==>
          exists b :: b in actorCurrentWaterBodies[owner] &&
            (forall b' :: b' in actorCurrentWaterBodies[owner] ==> priority(b) <= priority(b')) &&
            r == if scriptOverridesWaterInfo then scriptInfo(b, component, location) else nativeInfo(b, component, location)
    {
      var owner := world.components[component].owner;
      if owner in actorCurrentWaterBodies then
        var list := actorCurrentWaterBodies[owner];
        var body := list[0];
        assert forall b' :: b' in list ==> priority(body) <= priority(b') by {
          forall b' | b' in list
            ensures priority(body) <= priority(b')
          {
            var k :| 0 <= k < |list| && list[k] == b';
            assert k == 0 || priority(list[0]) <= priority(list[k]);
          }
        }
        if scriptOverridesWaterInfo then scriptInfo(body, component, location) else nativeInfo(body, component, location)
      else
        DefaultWaterInfo
    }
  }
}
