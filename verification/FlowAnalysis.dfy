/** Flows: the packet ids joined by edges of one kind, collected with a worklist. */
module FlowAnalysis {
  import opened Sequences
  import opened Models
  import opened Grouping
  import opened PacketRelationships

  // -- Walks over the edges of one kind -----------------------------------------------------

  ghost predicate Linked(edges: seq<Edge>, kind: Kind, a: EntityId, b: EntityId) {
    exists e :: e in edges && e.kind == kind && ((e.source == a && e.target == b) || (e.source == b && e.target == a))
  }

  /** A walk never passes the empty id: the search drops it as soon as it is popped. */
  ghost predicate Walk(edges: seq<Edge>, kind: Kind, walk: seq<EntityId>) {
    && (forall i :: 0 <= i < |walk| ==> walk[i] != "")
    && (forall i :: 0 <= i < |walk| - 1 ==> Linked(edges, kind, walk[i], walk[i + 1]))
  }

  ghost predicate WalkFrom(edges: seq<Edge>, kind: Kind, walk: seq<EntityId>, a: EntityId, b: EntityId) {
    walk != [] && walk[0] == a && walk[|walk| - 1] == b && Walk(edges, kind, walk)
  }

  ghost predicate Reaches(edges: seq<Edge>, kind: Kind, a: EntityId, b: EntityId) {
    exists walk :: WalkFrom(edges, kind, walk, a, b)
  }

  lemma ReachesItself(edges: seq<Edge>, kind: Kind, a: EntityId)
    requires a != ""
    ensures Reaches(edges, kind, a, a)
  {
    assert WalkFrom(edges, kind, [a], a, a);
  }

  lemma ReachesNext(edges: seq<Edge>, kind: Kind, a: EntityId, b: EntityId, c: EntityId)
    requires Reaches(edges, kind, a, b) && Linked(edges, kind, b, c) && c != ""
    ensures Reaches(edges, kind, a, c)
  {
    var walk :| WalkFrom(edges, kind, walk, a, b);
    assert WalkFrom(edges, kind, walk + [c], a, c);
  }

  lemma {:induction false} Continue(
    edges: seq<Edge>, kind: Kind, walk: seq<EntityId>, a: EntityId, b: EntityId, c: EntityId)
    requires Reaches(edges, kind, a, b) && WalkFrom(edges, kind, walk, b, c)
    ensures Reaches(edges, kind, a, c)
    decreases |walk|
  {
    if |walk| > 1 {
      assert Linked(edges, kind, walk[0], walk[1]);
      ReachesNext(edges, kind, a, b, walk[1]);
      Continue(edges, kind, walk[1..], a, walk[1], c);
    }
  }

  lemma ReachesIsTransitive(edges: seq<Edge>, kind: Kind, a: EntityId, b: EntityId, c: EntityId)
    requires Reaches(edges, kind, a, b) && Reaches(edges, kind, b, c)
    ensures Reaches(edges, kind, a, c)
  {
    var walk :| WalkFrom(edges, kind, walk, b, c);
    Continue(edges, kind, walk, a, b, c);
  }

  lemma {:induction false} Return(edges: seq<Edge>, kind: Kind, walk: seq<EntityId>, a: EntityId, b: EntityId)
    requires WalkFrom(edges, kind, walk, a, b)
    ensures Reaches(edges, kind, b, a)
    decreases |walk|
  {
    var init := walk[..|walk| - 1];
    if init == [] {
      ReachesItself(edges, kind, a);
    } else {
      var c := walk[|walk| - 2];
      Return(edges, kind, init, a, c);
      assert Linked(edges, kind, walk[|walk| - 2], walk[|walk| - 2 + 1]);
      ReachesItself(edges, kind, b);
      ReachesNext(edges, kind, b, b, c);
      ReachesIsTransitive(edges, kind, b, c, a);
    }
  }

  lemma ReachesIsSymmetric(edges: seq<Edge>, kind: Kind, a: EntityId, b: EntityId)
    requires Reaches(edges, kind, a, b)
    ensures Reaches(edges, kind, b, a)
  {
    var walk :| WalkFrom(edges, kind, walk, a, b);
    Return(edges, kind, walk, a, b);
  }

  /** No link leaves `inside`, apart from links to the empty id. */
  ghost predicate ClosedUnder(edges: seq<Edge>, kind: Kind, inside: iset<EntityId>) {
    forall a, b :: a in inside && a != "" && b != "" && Linked(edges, kind, a, b) ==> b in inside
  }

  lemma {:induction false} WalkStays(
    edges: seq<Edge>, kind: Kind, walk: seq<EntityId>, inside: iset<EntityId>, a: EntityId, b: EntityId)
    requires WalkFrom(edges, kind, walk, a, b) && ClosedUnder(edges, kind, inside) && a in inside
    ensures b in inside
    decreases |walk|
  {
    if |walk| > 1 {
      assert Linked(edges, kind, walk[0], walk[1]);
      WalkStays(edges, kind, walk[1..], inside, walk[1], b);
    }
  }

  lemma StaysInside(edges: seq<Edge>, kind: Kind, inside: iset<EntityId>, a: EntityId, b: EntityId)
    requires Reaches(edges, kind, a, b) && ClosedUnder(edges, kind, inside) && a in inside
    ensures b in inside
  {
    var walk :| WalkFrom(edges, kind, walk, a, b);
    WalkStays(edges, kind, walk, inside, a, b);
  }

  // -- Adjacency --------------------------------------------------------------------------------

  /** `Map<EntityId, Set<EntityId>>`: a JavaScript set keeps insertion order. */
  type Adjacency = map<EntityId, seq<EntityId>>

  method Connect(keys: seq<EntityId>, adjacency: Adjacency, source: EntityId, target: EntityId)
    returns (keys': seq<EntityId>, adjacency': Adjacency)
    requires forall id :: id in keys <==> id in adjacency
    ensures forall id :: id in keys' <==> id in adjacency'
    ensures forall a, b :: b in Get(adjacency', a) <==> b in Get(adjacency, a) || (a == source && b == target)
  {
    keys' := if source in adjacency then keys else keys + [source];
    var relatedIds := Get(adjacency, source);
    relatedIds := if target in relatedIds then relatedIds else relatedIds + [target];
    adjacency' := adjacency[source := relatedIds];
  }

  ghost predicate Represents(adjacency: Adjacency, edges: seq<Edge>, kind: Kind) {
    forall a, b :: b in Get(adjacency, a) <==> Linked(edges, kind, a, b)
  }

  lemma LinkedAppend(edges: seq<Edge>, e: Edge, kind: Kind, a: EntityId, b: EntityId)
    ensures Linked(edges + [e], kind, a, b)
            <==> Linked(edges, kind, a, b)
                 || (e.kind == kind && ((e.source == a && e.target == b) || (e.source == b && e.target == a)))
  {
    assert e in edges + [e];
  }

  method BuildAdjacency(edges: seq<Edge>, kind: Kind) returns (keys: seq<EntityId>, adjacency: Adjacency)
    ensures forall id :: id in keys <==> id in adjacency
    ensures Represents(adjacency, edges, kind)
  {
    keys, adjacency := [], map[];
    for i := 0 to |edges|
      invariant forall id :: id in keys <==> id in adjacency
      invariant Represents(adjacency, edges[..i], kind)
    {
      var e := edges[i];
      assert edges[..i + 1] == edges[..i] + [e];
      forall a, b { LinkedAppend(edges[..i], e, kind, a, b); }
      if e.kind == kind {
        keys, adjacency := Connect(keys, adjacency, e.source, e.target);
        keys, adjacency := Connect(keys, adjacency, e.target, e.source);
      }
    }
    assert edges[..|edges|] == edges;
  }

  lemma LinkedIsKey(adjacency: Adjacency, edges: seq<Edge>, kind: Kind, a: EntityId, b: EntityId)
    requires Represents(adjacency, edges, kind) && Linked(edges, kind, a, b)
    ensures a in adjacency && b in adjacency && Linked(edges, kind, b, a)
  {
    assert b in Get(adjacency, a);
    assert Linked(edges, kind, b, a);
    assert a in Get(adjacency, b);
  }

  // -- The worklist -------------------------------------------------------------------------------

  /** The loop over `adjacency.get(currentPacketId) ?? []`. */
  method PushUnvisited(neighbours: seq<EntityId>, visited: set<EntityId>, stack: seq<EntityId>)
    returns (visited': set<EntityId>, stack': seq<EntityId>)
    requires NoDuplicates(stack) && forall v :: v in stack ==> v in visited
    ensures NoDuplicates(stack') && (visited' == visited ==> stack' == stack)
    ensures forall v :: v in visited' <==> v in visited || v in neighbours
    ensures forall v :: v in stack' <==> v in stack || (v in neighbours && v !in visited)
  {
    visited', stack' := visited, stack;
    for i := 0 to |neighbours|
      invariant NoDuplicates(stack') && (visited' == visited ==> stack' == stack)
      invariant forall v :: v in visited' <==> v in visited || v in neighbours[..i]
      invariant forall v :: v in stack' <==> v in stack || (v in neighbours[..i] && v !in visited)
    {
      var next := neighbours[i];
      assert neighbours[..i + 1] == neighbours[..i] + [next];
      if next !in visited' {
        visited' := visited' + {next};
        assert next in visited' && next !in visited;
        stack' := stack' + [next];
      }
    }
    assert neighbours[..|neighbours|] == neighbours;
  }

  /** What has been seen so far is closed, apart from the ids still on the stack. */
  ghost predicate ClosedApartFrom(edges: seq<Edge>, kind: Kind, visited: set<EntityId>, stack: seq<EntityId>) {
    forall a, b :: a in visited && a !in stack && a != "" && Linked(edges, kind, a, b) ==> b in visited
  }

  /** `component` holds exactly the ids its first one reaches. */
  ghost predicate IsComponentOf(edges: seq<Edge>, kind: Kind, component: seq<EntityId>, root: EntityId) {
    && NoDuplicates(component)
    && forall id :: id in component <==> Reaches(edges, kind, root, id)
  }

  lemma NothingReachesEmpty(edges: seq<Edge>, kind: Kind, a: EntityId, b: EntityId)
    requires Reaches(edges, kind, a, b)
    ensures a != "" && b != ""
  {
    var walk :| WalkFrom(edges, kind, walk, a, b);
  }

  /** One search, from `root`. */
  method CollectComponent(adjacency: Adjacency, root: EntityId, visited: set<EntityId>,
                          ghost edges: seq<Edge>, ghost kind: Kind)
    returns (component: seq<EntityId>, visited': set<EntityId>)
    requires Represents(adjacency, edges, kind)
    requires root in adjacency && root !in visited && visited <= adjacency.Keys
    requires ClosedApartFrom(edges, kind, visited, [])
    ensures IsComponentOf(edges, kind, component, root)
    ensures visited <= visited' <= adjacency.Keys && root in visited'
    ensures ClosedApartFrom(edges, kind, visited', [])
    ensures forall v :: v in visited' && v !in visited && v != "" ==> v in component
    ensures forall v :: v in component ==> v in visited' && v !in visited
  {
    var stack := [root];
    component, visited' := [], visited + {root};
    if root != "" { ReachesItself(edges, kind, root); }
    while stack != []
      invariant visited <= visited' <= adjacency.Keys && root in visited'
      invariant NoDuplicates(stack) && NoDuplicates(component)
      invariant forall v :: v in stack ==> v in visited' && v !in visited && v !in component
      invariant forall v :: v in component ==> v in visited' && v !in visited && v != ""
      invariant forall v :: v in visited' && v !in visited && v != "" ==> v in component || v in stack
      invariant forall v :: (v in stack || v in component) && v != "" ==> Reaches(edges, kind, root, v)
      invariant ClosedApartFrom(edges, kind, visited', stack)
      invariant root == "" ==> component == [] && forall v :: v in stack ==> v == ""
      decreases adjacency.Keys - visited', |stack|
    {
      ghost var before := stack;
      var current := stack[|stack| - 1];
      stack := stack[..|stack| - 1];
      Popped(before);
      if current == "" {
        continue;
      }
      assert Reaches(edges, kind, root, current);
      component := component + [current];
      var neighbours := Get(adjacency, current);
      forall v | v in neighbours && v != "" ensures v in adjacency && Reaches(edges, kind, root, v) {
        LinkedIsKey(adjacency, edges, kind, current, v);
        ReachesNext(edges, kind, root, current, v);
      }
      forall v | v in neighbours ensures v in adjacency {
        LinkedIsKey(adjacency, edges, kind, current, v);
      }
      ghost var seen := visited';
      visited', stack := PushUnvisited(neighbours, visited', stack);
      if v :| v in visited' && v !in seen {
        assert v in adjacency.Keys - seen && v !in adjacency.Keys - visited';
      } else {
        assert visited' == seen;
      }
    }
    SearchIsComplete(edges, kind, component, root, visited, visited');
  }

  lemma SearchIsComplete(
    edges: seq<Edge>, kind: Kind, component: seq<EntityId>, root: EntityId,
    visited: set<EntityId>, visited': set<EntityId>)
    requires ClosedApartFrom(edges, kind, visited, []) && ClosedApartFrom(edges, kind, visited', [])
    requires forall v :: v in component ==> v in visited' && v !in visited && v != ""
    requires forall v :: v in visited' && v !in visited && v != "" ==> v in component
    requires forall v :: v in component ==> Reaches(edges, kind, root, v)
    requires root in visited' && root !in visited
    ensures forall id :: id in component <==> Reaches(edges, kind, root, id)
  {
    var inside := iset v | v in component;
    forall a, b | a in inside && b != "" && Linked(edges, kind, a, b) ensures b in inside {
      assert Linked(edges, kind, b, a);
    }
    assert ClosedUnder(edges, kind, inside);
    forall id | Reaches(edges, kind, root, id) ensures id in component {
      NothingReachesEmpty(edges, kind, root, id);
      StaysInside(edges, kind, inside, root, id);
    }
  }

  lemma Popped(stack: seq<EntityId>)
    requires stack != [] && NoDuplicates(stack)
    ensures var last, rest := stack[|stack| - 1], stack[..|stack| - 1];
            NoDuplicates(rest) && last !in rest && forall v :: v in stack <==> v == last || v in rest
  {
    assert stack == stack[..|stack| - 1] + [stack[|stack| - 1]];
  }

  /** The ids of the components are exactly the ids joined to some other id, each in
      one component, and two ids share a component iff a walk joins them. */
  ghost predicate AreComponents(edges: seq<Edge>, kind: Kind, components: seq<seq<EntityId>>) {
    && (forall i :: 0 <= i < |components| ==> |components[i]| >= 2 && NoDuplicates(components[i]))
    && (forall i, j, id :: 0 <= i < j < |components| && id in components[i] ==> id !in components[j])
    && (forall a, b :: a != b ==> (Together(components, a, b) <==> Reaches(edges, kind, a, b)))
  }

  ghost predicate Together(components: seq<seq<EntityId>>, a: EntityId, b: EntityId) {
    exists i :: 0 <= i < |components| && a in components[i] && b in components[i]
  }

  ghost predicate IsComponent(edges: seq<Edge>, kind: Kind, component: seq<EntityId>) {
    && |component| >= 2 && NoDuplicates(component)
    && forall a, b :: a in component ==> (b in component <==> Reaches(edges, kind, a, b))
  }

  lemma AnyRootWillDo(edges: seq<Edge>, kind: Kind, component: seq<EntityId>, root: EntityId)
    requires IsComponentOf(edges, kind, component, root)
    ensures forall a, b :: a in component ==> (b in component <==> Reaches(edges, kind, a, b))
  {
    forall a, b | a in component ensures b in component <==> Reaches(edges, kind, a, b) {
      ReachesIsSymmetric(edges, kind, root, a);
      if b in component {
        ReachesIsTransitive(edges, kind, a, root, b);
      }
      if Reaches(edges, kind, a, b) {
        ReachesIsTransitive(edges, kind, root, a, b);
      }
    }
  }

  ghost predicate CollectedSoFar(edges: seq<Edge>, kind: Kind, components: seq<seq<EntityId>>, visited: set<EntityId>) {
    && (forall i :: 0 <= i < |components| ==> IsComponent(edges, kind, components[i]))
    && (forall i, id :: 0 <= i < |components| && id in components[i] ==> id in visited)
    && (forall i, j, id :: 0 <= i < j < |components| && id in components[i] ==> id !in components[j])
    && (forall a, b :: a in visited && a != b && Reaches(edges, kind, a, b) ==> Together(components, a, b))
  }

  lemma AddComponent(
    edges: seq<Edge>, kind: Kind, components: seq<seq<EntityId>>, visited: set<EntityId>,
    component: seq<EntityId>, root: EntityId, visited': set<EntityId>)
    requires CollectedSoFar(edges, kind, components, visited) && IsComponentOf(edges, kind, component, root)
    requires visited <= visited' && forall v :: v in component ==> v in visited' && v !in visited
    requires forall v :: v in visited' && v !in visited && v != "" ==> v in component
    ensures CollectedSoFar(edges, kind, if |component| >= 2 then components + [component] else components, visited')
  {
    AnyRootWillDo(edges, kind, component, root);
    var all := if |component| >= 2 then components + [component] else components;
    forall a, b | a in visited' && a != b && Reaches(edges, kind, a, b) ensures Together(all, a, b) {
      NothingReachesEmpty(edges, kind, a, b);
      if a in visited {
        var i :| 0 <= i < |components| && a in components[i] && b in components[i];
        assert all[i] == components[i];
      } else {
        assert a in component && b in component;
        TwoElements(component, a, b);
        assert all[|components|] == component;
      }
    }
  }

  lemma TwoElements(xs: seq<EntityId>, a: EntityId, b: EntityId)
    requires a in xs && b in xs && a != b
    ensures |xs| >= 2
  {
  }

  lemma ReachedIsKey(adjacency: Adjacency, edges: seq<Edge>, kind: Kind, a: EntityId, b: EntityId)
    requires Represents(adjacency, edges, kind) && Reaches(edges, kind, a, b) && a != b
    ensures a in adjacency
  {
    var walk :| WalkFrom(edges, kind, walk, a, b);
    assert Linked(edges, kind, walk[0], walk[1]);
    LinkedIsKey(adjacency, edges, kind, walk[0], walk[1]);
  }

  lemma AllCollected(
    adjacency: Adjacency, edges: seq<Edge>, kind: Kind, components: seq<seq<EntityId>>, visited: set<EntityId>)
    requires Represents(adjacency, edges, kind)
    requires CollectedSoFar(edges, kind, components, visited) && adjacency.Keys <= visited
    ensures AreComponents(edges, kind, components)
  {
    forall a, b | a != b ensures Together(components, a, b) <==> Reaches(edges, kind, a, b) {
      if Reaches(edges, kind, a, b) {
        ReachedIsKey(adjacency, edges, kind, a, b);
      }
      if Together(components, a, b) {
        var i :| 0 <= i < |components| && a in components[i] && b in components[i];
        assert IsComponent(edges, kind, components[i]);
      }
    }
  }

  method CollectConnectedPacketIds(relationships: seq<Edge>, kind: Kind) returns (components: seq<seq<EntityId>>)
    ensures AreComponents(relationships, kind, components)
  {
    var keys, adjacency := BuildAdjacency(relationships, kind);
    components := [];
    var visited: set<EntityId> := {};
    for i := 0 to |keys|
      invariant visited <= adjacency.Keys && ClosedApartFrom(relationships, kind, visited, [])
      invariant CollectedSoFar(relationships, kind, components, visited)
      invariant forall j :: 0 <= j < i ==> keys[j] in visited
    {
      if keys[i] in visited {
        continue;
      }
      assert keys[i] in keys;
      ghost var before := visited;
      var component: seq<EntityId>;
      component, visited := CollectComponent(adjacency, keys[i], visited, relationships, kind);
      AddComponent(relationships, kind, components, before, component, keys[i], visited);
      if |component| >= 2 {
        components := components + [component];
      }
    }
    AllCollected(adjacency, relationships, kind, components, visited);
  }
}
