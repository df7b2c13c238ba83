/** The command of main.go: compositions are built, connections are found, and branches are printed. */
module Command {
  import opened Connections
  import opened EdgeList
  import opened Cluster
  import opened CompositionTree
  import opened Components
  import opened Graph
  import opened Progress
  import opened Reachability
  import opened Runs
  import opened Symmetry
  import Branches
  import CompositionStore
  import Discovery
  import ObjectCache
  import Ownership

  // ---------------------------------------------------------------- discovery and printing

  /** Discovery of one resource, from an empty edge list and an empty cache. It ends in every world that is allowed for. */
  method Discover(w: World, ghost scopes: set<string>) returns (visited: seq<Connection>, connections: seq<Connection>)
    requires EnvOk(Env(w, StartOf(w), scopes))
    ensures Rooted(connections, w.original)
    ensures |connections| > 1 ==> Branches.FirstLevelOne(connections) == 1
    ensures exists s: State :: Finished(Env(w, StartOf(w), scopes), s) && s.visited == visited && s.total == connections
    ensures Ignored(w, StartOf(w)) ==> visited == [] && |connections| == 1
    ensures scopes == {StartOf(w).namespace} ==> Exact(w, StartOf(w), visited, connections)
    ensures scopes == {StartOf(w).namespace} && Settled(w, StartOf(w)) ==>
              forall x :: !Ignored(w, x) ==> (x in Nodes(visited) <==> Reachable(w, false, StartOf(w), x))
  {
    hide Ok, Closed, Ignored, EnvOk, Exact, Reachable, Settled, Done;
    ghost var env := Env(w, StartOf(w), scopes);
    EnvWorld(env);
    var cache := new ObjectCache.KubeObjectCache(w.cluster);
    var discovery := new Discovery.Discovery(env, w, cache);
    visited := discovery.Run(w.original.kind, w.original.name, w.original.namespace);
    connections := discovery.total;
    ghost var s := discovery.Now(visited);
    OkIsRooted(env, s);
    FirstIsLevelOne(connections);
    if Constant(env) {
      FinishedIsExact(env, s);
      if Settled(w, StartOf(w)) {
        forall x | !Ignored(w, x)
          ensures x in Nodes(visited) <==> Reachable(w, false, env.start, x)
        {
          VisitedExactly(env, s, x);
        }
      }
    }
  }

  lemma FirstIsLevelOne(connections: seq<Connection>)
    requires Anchored(connections) || OnlyLoops(connections)
    requires connections != [] && connections[0].level == 0
    ensures |connections| > 1 ==> Branches.FirstLevelOne(connections) == 1
  {
    if k :| AnchoredAt(connections, k) {
      assert connections[1].level == 1;
    }
  }

  /** Behind the root every entry is in exactly one branch, in order, and however a branch is sorted, it starts with the root and
      goes on with its only Level-1 entry. */
  ghost predicate Printed(connections: seq<Connection>, branches: seq<seq<Connection>>) {
    && connections != [] && Branches.Tails(branches) == connections[1..]
    && (forall c :: c in connections[1..] <==> exists b :: 0 <= b < |branches| && |branches[b]| > 0 && c in branches[b][1..])
    && (|connections| > 1 ==> forall b :: 0 <= b < |branches| ==> BranchPrinted(connections[0], branches[b]))
  }

  ghost predicate BranchPrinted(root: Connection, branch: seq<Connection>) {
    && Branches.IsBranch(branch, root)
    && forall sorted :: Branches.SortedByLevel(branch, sorted) ==>
                          |sorted| == |branch| && sorted[0] == root && sorted[1] == branch[1]
  }

  method Print(connections: seq<Connection>, ghost root: Node) returns (branches: seq<seq<Connection>>)
    requires Rooted(connections, root) && (|connections| > 1 ==> Branches.FirstLevelOne(connections) == 1)
    ensures Printed(connections, branches)
  {
    branches := Branches.PrintConnections(connections);
    if |connections| > 1 {
      forall c
        ensures c in connections[1..] <==> exists b :: 0 <= b < |branches| && c in branches[b][1..]
      {
        Branches.TailsMembers(branches, c);
      }
      forall b | 0 <= b < |branches|
        ensures BranchPrinted(connections[0], branches[b])
      {
        assert forall k :: 1 <= k < |branches[b]| ==> branches[b][k] == branches[b][1..][k - 1];
        forall sorted | Branches.SortedByLevel(branches[b], sorted)
          ensures |sorted| == |branches[b]| && sorted[0] == connections[0] && sorted[1] == branches[b][1]
        {
          Branches.SortedBranchStartsAtRoot(connections, root, branches[b], sorted);
        }
      }
    }
  }

  // ---------------------------------------------------------------- the whole command

  /** The store after a single rebuild, or after none if the kinds cannot be read. */
  ghost predicate Built(list: seq<CompositionStore.Compositions>, view: Ownership.View, readable: bool)
    requires CompositionStore.Finite(view)
  {
    CompositionStore.UniqueKeys(list) && CompositionStore.AsMap(list) == if readable then CompositionStore.Rebuilt(map[], view) else map[]
  }

  /** What the command needs to know about the cluster; nothing of it concerns compositions. */
  ghost predicate InputOk(w: World, view: Ownership.View) {
    && ResourcesOk(w) && "" !in w.gvks
    && view.cluster == w.cluster && view.registry.gvks == w.gvks && view.namespace == w.original.namespace != ""
    && CompositionStore.Finite(view) && w.original.name != ANY
  }

  /** The namespaces a run may search in are `scopes`, whatever order the compositions are stored in. */
  ghost predicate ScopesOk(w: World, view: Ownership.View, readable: bool, scopes: set<string>)
    requires CompositionStore.Finite(view)
  {
    && StartOf(w).namespace in scopes
    && forall list :: Built(list, view, readable) ==>
         var env := Env(w.(compositions := list), StartOf(w), scopes);
         ScopesClosed(env) && (Constant(env) || NamespacesUnowned(env.world))
  }

  lemma BuiltIsStored(w: World, view: Ownership.View, readable: bool, list: seq<CompositionStore.Compositions>)
    requires InputOk(w, view) && Built(list, view, readable)
    ensures StoredTrees(w.(compositions := list))
  {
    var world := w.(compositions := list);
    hide ResourcesOk, CompositionStore.Finite;
    forall item | item in list
      ensures exists v, t :: IsCurrent(world, item, v, t)
    {
      var i :| 0 <= i < |list| && list[i] == item;
      CompositionStore.MapsTo(list, i);
      BuiltIsCurrent(world, view, item);
    }
  }

  /** So the assumptions about compositions hold. */
  lemma BuiltIsOk(w: World, view: Ownership.View, readable: bool, list: seq<CompositionStore.Compositions>)
    requires InputOk(w, view) && Built(list, view, readable)
    ensures WorldOk(w.(compositions := list))
  {
    var world := w.(compositions := list);
    BuiltIsStored(w, view, readable, list);
    ResourcesIgnoreCompositions(w, list);
    hide IsCurrent, ShownChildren, Mentioned, Built, CompositionStore.Finite;
    forall item, c | item in list && c in ShownChildren(item)
      ensures c.kind != "" && Named(c.name) && c.namespace == item.key.namespace
    {
      var v, t :| IsCurrent(world, item, v, t);
      CurrentIsProper(world, item, v, t, c);
    }
  }

  method CheckExistence(w: World) returns (found: bool)
    ensures found == (w.original.name != "" && Got(w, w.original.kind, w.original.name, w.original.namespace).Some?)
  {
    if w.original.name == "" {
      return false;
    }
    var o := Get(w.cluster, GvkOf(w, w.original.kind), w.original.name, w.original.namespace);
    if o.None? {
      o := Get(w.cluster, GvkOf(w, w.original.kind), w.original.name, "");
      if o.None? {
        return false;
      }
    }
    return true;
  }

  /** Which fields are unambiguous, and what is ignored, has nothing to do with compositions. */
  lemma CompositionsDoNotMatter(w: World, list: seq<CompositionStore.Compositions>)
    ensures forall namespace :: Unambiguous(w, namespace) ==> Unambiguous(w.(compositions := list), namespace)
    ensures forall x :: Ignored(w, x) <==> Ignored(w.(compositions := list), x)
  {
    assert forall o, kind :: OfKind(w.(compositions := list), o, kind) <==> OfKind(w, o, kind);
    hide OfKind;
  }

  /** The command as a whole: it ends, tells whether the resource exists, and prints exactly what can be found from it. */
  method FindConnections(w: World, view: Ownership.View, readable: bool, ghost scopes: set<string>)
    returns (found: bool, world: World, visited: seq<Connection>, connections: seq<Connection>, branches: seq<seq<Connection>>)
    requires InputOk(w, view) && ScopesOk(w, view, readable, scopes)
    ensures found == (w.original.name != "" && Got(w, w.original.kind, w.original.name, w.original.namespace).Some?)
    ensures !found ==> visited == [] && connections == [] && branches == []
    ensures found ==> world == w.(compositions := world.compositions) && Built(world.compositions, view, readable)
    ensures found ==> Rooted(connections, w.original) && Printed(connections, branches)
    ensures found && scopes == {StartOf(w).namespace} ==> Exact(world, StartOf(w), visited, connections)
    ensures found && Unambiguous(w, StartOf(w).namespace) ==> Settled(world, StartOf(w))
    ensures found && scopes == {StartOf(w).namespace} && Settled(world, StartOf(w)) ==>
              forall x :: !Ignored(w, x) ==> (x in Nodes(visited) <==> Reachable(world, false, StartOf(w), x))
  {
    world, visited, connections, branches := w, [], [], [];
    found := CheckExistence(w);
    if found {
      hide Exact, Printed, Rooted, Reachable, Unambiguous, Settled, Ignored, ScopesClosed, NamespacesUnowned, WorldOk, ResourcesOk, CompositionStore.Finite, CompositionStore.AsMap,
           CompositionStore.Rebuilt, CompositionStore.UniqueKeys, Got;
      var store := new CompositionStore.ClusterCompositions();
      store.BuildCompositionTree(view, readable);
      world := w.(compositions := store.clusterCompositions);
      BuiltIsOk(w, view, readable, store.clusterCompositions);
      CompositionsDoNotMatter(w, store.clusterCompositions);
      if Unambiguous(w, StartOf(w).namespace) {
        UnambiguousIsSettled(world, StartOf(w));
      }
      visited, connections := Discover(world, scopes);
      branches := Print(connections, w.original);
    }
  }

  /** With single owners and nothing ignored, one can walk back from all components of a built store, so that discovery does not
      depend on where it starts. */
  lemma BuiltComponentsKnown(w: World, view: Ownership.View, readable: bool, list: seq<CompositionStore.Compositions>, namespace: string)
    requires InputOk(w, view) && Built(list, view, readable) && SingleOwners(w, namespace) && forall x :: !Ignored(w, x)
    ensures ComponentsKnown(w.(compositions := list), namespace)
  {
    BuiltIsStored(w, view, readable, list);
    hide ResourcesOk, CompositionStore.Finite, Built, StoredTrees, ComponentsOwned;
    assert forall x :: Ignored(w, x) <==> Ignored(w.(compositions := list), x);
  }
}
