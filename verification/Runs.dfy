/** What a run of the discovery command finds, and where it may start. */
module Runs {
  import opened Connections
  import opened EdgeList
  import opened Relationships
  import opened Cluster
  import opened CompositionTree
  import opened Components
  import opened Graph
  import opened Matching
  import opened Progress
  import opened Reachability
  import opened Symmetry
  import Branches
  import CompositionStore
  import Discovery
  import ObjectCache

  // ---------------------------------------------------------------- the end of a run

  /** The state in which a run ends. */
  ghost predicate Finished(env: Env, s: State) {
    && Ok(env, s) && Closed(env, s, {}) && s.active == []
    && (Ignored(env.world, env.start) || (env.start in Nodes(s.visited) && env.start in s.entered))
  }

  lemma {:induction false} WithinIsWalk(env: Env, n: nat, x: Node)
    requires Constant(env) && Within(env, n, x)
    ensures Walk(env.world, false, n, env.start, x) && x.namespace == env.start.namespace
  {
    hide Edge, Ignored;
    if x != env.start {
      var y :| Within(env, n - 1, y) && !Ignored(env.world, y) && Step(env, y, x);
      WithinIsWalk(env, n - 1, y);
      assert x == Node(x.kind, x.name, y.namespace);
    }
  }

  /** Nothing is visited that cannot be reached. */
  lemma VisitedIsReachable(env: Env, s: State, x: Node)
    requires Constant(env) && Ok(env, s) && x in Nodes(s.visited)
    ensures Reachable(env.world, false, env.start, x)
  {
    hide Within;
    var i :| 0 <= i < |s.visited| && s.visited[i].node == x;
    assert Placed(env, s.found, s.visited[i]);
    WithinIsWalk(env, s.visited[i].level, x);
  }

  /** In one namespace, what a node yields surely it yields in any case. */
  lemma ConstantAlways(env: Env, a: Node, b: Node, ty: RelType, peer: Node)
    requires Constant(env) && a.namespace == env.start.namespace
    requires Yields(env.world, a, b, ty, peer, a.namespace, true)
    ensures AlwaysYields(env, a, b, ty, peer)
  {
    hide LeadsDown, LeadsUp, OwnershipYields;
    forall down, rel | Leads(env.world, down, a, rel, b, a.namespace, true)
      ensures AlwaysLeads(env, down, a, rel, b)
    {
    }
    if Down(env.world, a, b, ty, a.namespace, true) {
      var rel :| rel in RelsOf(env.world, a.kind) && b.kind in rel.targetKinds && ty == TypeOf(rel) && LeadsDown(env.world, a, rel, b, a.namespace, true);
      assert Leads(env.world, true, a, rel, b, a.namespace, true);
    }
    if Up(env.world, a, b, ty, a.namespace, true) {
      var rel :| rel in RelsOf(env.world, b.kind) && a.kind in rel.targetKinds && ty == TypeOf(rel) && LeadsUp(env.world, a, rel, b, a.namespace, true);
      assert Leads(env.world, false, a, rel, b, a.namespace, true);
    }
  }

  /** Whatever can surely be reached is visited, unless it is ignored. */
  lemma {:induction false} ReachableIsVisited(env: Env, s: State, n: nat, x: Node)
    requires Constant(env) && Finished(env, s) && Walk(env.world, true, n, env.start, x)
    ensures x in Nodes(s.visited) || Ignored(env.world, x)
  {
    hide Edge, Ignored, Ok, Nodes, Yields, AlwaysYields;
    if x != env.start {
      var y :| Walk(env.world, true, n - 1, env.start, y) && !Ignored(env.world, y) && Joined(env.world, true, y, x);
      ReachableIsVisited(env, s, n - 1, y);
      WalkStaysInNamespace(env.world, true, n - 1, env.start, y);
      assert Done(env, s, y);
      var ty :| Edge(env.world, y, x, ty, y.namespace, true);
      EdgeYields(env.world, y, x, ty, y.namespace, true);
      var peer :| Yields(env.world, y, x, ty, peer, y.namespace, true);
      ConstantAlways(env, y, x, ty, peer);
    }
  }

  /** The traversal is exact. */
  lemma VisitedExactly(env: Env, s: State, x: Node)
    requires Constant(env) && Settled(env.world, env.start) && Finished(env, s) && !Ignored(env.world, x)
    ensures x in Nodes(s.visited) <==> Reachable(env.world, false, env.start, x)
  {
    hide Constant, Settled, Ok, Closed, Ignored, Walk;
    if x in Nodes(s.visited) {
      VisitedIsReachable(env, s, x);
    }
    if n: nat :| Walk(env.world, false, n, env.start, x) {
      SettledWalks(env.world, n, env.start, x);
      ReachableIsVisited(env, s, n, x);
    }
  }

  // ---------------------------------------------------------------- the edge list

  /** No link is lost, in a run with any number of scopes: what an entered node yields in any case is told of at the end. */
  lemma NoLinkLost(env: Env, s: State, a: Node, b: Node, ty: RelType, peer: Node)
    requires Finished(env, s) && a in s.entered && AlwaysYields(env, a, b, ty, peer)
    ensures Told(s.total, b, peer)
  {
    hide AlwaysYields, Arrived, Linked, Closed;
    assert Done(env, s, a);
    DoneIsTold(env, s, a, b, ty, peer);
  }

  lemma DoneIsTold(env: Env, s: State, a: Node, b: Node, ty: RelType, peer: Node)
    requires Ok(env, s) && Done(env, s, a) && AlwaysYields(env, a, b, ty, peer)
    ensures Told(s.total, b, peer)
  {
    hide AlwaysYields, Arrived, Linked;
    assert Noted(env, s, b, ty, peer);
    var c :| c in s.found && c.node == b && c.relationType == ty && c.peer == Some(peer);
    assert Linked(s.total, c);
    LinkedIsTold(s.total, c);
  }

  /** In one namespace that goes for all visited nodes that are not ignored, and for all that they surely yield. */
  lemma NoVisitedLinkLost(env: Env, s: State, a: Node, b: Node, ty: RelType, peer: Node)
    requires Constant(env) && Finished(env, s)
    requires a in Nodes(s.visited) && !Ignored(env.world, a) && Yields(env.world, a, b, ty, peer, a.namespace, true)
    ensures Told(s.total, b, peer)
  {
    VisitedInStartNamespace(env, s, a);
    ConstantAlways(env, a, b, ty, peer);
    hide Yields, AlwaysYields, Ignored, Told;
    assert Done(env, s, a);
    DoneIsTold(env, s, a, b, ty, peer);
  }

  lemma VisitedInStartNamespace(env: Env, s: State, a: Node)
    requires Constant(env) && Ok(env, s) && a in Nodes(s.visited)
    ensures a.namespace == env.start.namespace
  {
    hide Within, Edge;
    var i :| 0 <= i < |s.visited| && s.visited[i].node == a;
    assert Placed(env, s.found, s.visited[i]);
  }

  // ---------------------------------------------------------------- levels

  /** Different nodes from the start on, each found from the one before; only the last may be ignored. */
  ghost predicate CallPath(w: World, start: Node, nodes: seq<Node>) {
    && nodes != [] && nodes[0] == start
    && (forall i :: 0 < i < |nodes| ==> FromTheOneBefore(w, nodes, i))
    && forall i, j :: 0 <= i < j < |nodes| ==> nodes[i] != nodes[j]
  }

  ghost predicate FromTheOneBefore(w: World, nodes: seq<Node>, i: nat)
    requires 0 < i < |nodes|
  {
    !Ignored(w, nodes[i - 1]) && Joined(w, false, nodes[i - 1], nodes[i])
  }

  /** Entry `c` stands for what is yielded by a node at the end of a path of calls, and its level is the length of that path. */
  ghost predicate Real(w: World, start: Node, c: Connection) {
    c.level >= 1 && c.peer.Some? && exists nodes :: |nodes| == c.level && CallPath(w, start, nodes) && Yielded(w, nodes[c.level - 1], c)
  }

  ghost predicate Yielded(w: World, a: Node, c: Connection) {
    !Ignored(w, a) && c.peer.Some? && Yields(w, a, c.node, c.relationType, c.peer.value, a.namespace, false)
  }

  /** A visited node has its level from such a path to it, or to a node from which it is found. */
  ghost predicate AtDepth(w: World, start: Node, level: int, n: Node) {
    exists nodes :: |nodes| == level && CallPath(w, start, nodes)
                    && (nodes[level - 1] == n || (!Ignored(w, nodes[level - 1]) && Joined(w, false, nodes[level - 1], n)))
  }

  /** One of these connections, at `level`, leads from `a` to `n`. */
  ghost predicate Handed(w: World, found: seq<Connection>, level: int, a: Node, n: Node) {
    exists d :: d in found && d.level == level && d.node == n && Yielded(w, a, d)
  }

  /** The level of `c` is the length of a path of calls, the connections along which had been handed over, one at each level. */
  ghost predicate Deep(w: World, start: Node, found: seq<Connection>, c: Connection) {
    c.level >= 1 && exists nodes :: |nodes| == c.level && CallPath(w, start, nodes) && Yielded(w, nodes[c.level - 1], c)
                                    && forall i :: 0 < i < |nodes| ==> Handed(w, found, i, nodes[i - 1], nodes[i])
  }

  lemma RelativeIsYielded(env: Env, a: Node, level: int, c: Connection)
    requires Constant(env) && a.namespace in env.scopes && !Ignored(env.world, a) && IsRelative(env, a, level, c)
    ensures Yielded(env.world, a, c) && Joined(env.world, false, a, c.node) && c.level == level
  {
    hide Yields, Edge, Ignored;
    var targetNamespace :| targetNamespace in env.scopes
                           && Yields(env.world, a, c.node, c.relationType, c.peer.value, targetNamespace, false);
    EdgeYields(env.world, a, c.node, c.relationType, targetNamespace, false);
  }

  /** In one namespace a stack of calls is a path. */
  lemma StackIsPath(env: Env, found: seq<Connection>, nodes: seq<Node>)
    requires Constant(env) && Stack(env, found, nodes) && nodes != []
    ensures CallPath(env.world, env.start, nodes)
    ensures forall i :: 0 < i < |nodes| ==> Handed(env.world, found, i, nodes[i - 1], nodes[i])
  {
    hide IsRelative, Ignored, Joined, Yielded;
    forall i | 0 < i < |nodes|
      ensures FromTheOneBefore(env.world, nodes, i) && Handed(env.world, found, i, nodes[i - 1], nodes[i])
    {
      assert CalledFrom(env, found, i, nodes[i - 1], nodes[i]);
      var d :| d in found && LeadsTo(env, d, nodes[i]) && IsRelative(env, nodes[i - 1], i, d);
      RelativeIsYielded(env, nodes[i - 1], i, d);
    }
  }

  lemma FoundedIsDeep(env: Env, found: seq<Connection>, c: Connection)
    requires Constant(env) && Founded(env, found, c)
    ensures Deep(env.world, env.start, found, c) && Real(env.world, env.start, c)
  {
    hide Stack, IsRelative, Ignored, Yields, Handed, Within, CallPath, Joined;
    var nodes: seq<Node> :| |nodes| == c.level && Stack(env, found, nodes) && FoundFrom(env, nodes[c.level - 1], c);
    StackIsPath(env, found, nodes);
    RelativeIsYielded(env, nodes[c.level - 1], c.level, c);
    assert CallPath(env.world, env.start, nodes) && Yielded(env.world, nodes[c.level - 1], c);
  }

  /** Levels are exact: that of everything that was handed over is the depth of the call that found it. */
  lemma LevelsAreDepths(env: Env, s: State, j: nat)
    requires Constant(env) && Ok(env, s) && j < |s.found|
    ensures Deep(env.world, env.start, s.found[..j], s.found[j])
  {
    hide Founded, Deep, Real;
    FoundedIsDeep(env, s.found[..j], s.found[j]);
  }

  lemma VisitedLevel(env: Env, s: State, i: nat)
    requires Constant(env) && Ok(env, s) && i < |s.visited|
    ensures AtDepth(env.world, env.start, s.visited[i].level, s.visited[i].node)
  {
    hide Founded, AtDepth, Stack, Within;
    var c := s.visited[i];
    assert Placed(env, s.found, c);
    if e: Connection :| e.node == c.node && e.level == c.level && Founded(env, s.found, e) {
      FoundAtDepth(env, s.found, e);
    } else {
      var nodes: seq<Node> :| |nodes| == c.level && Stack(env, s.found, nodes) && |nodes| >= 1 && nodes[|nodes| - 1] == c.node;
      StackAtDepth(env, s.found, nodes);
    }
  }

  lemma FoundAtDepth(env: Env, found: seq<Connection>, e: Connection)
    requires Constant(env) && Founded(env, found, e)
    ensures AtDepth(env.world, env.start, e.level, e.node)
  {
    hide Founded, CallPath, Joined, Ignored, Yields;
    FoundedIsDeep(env, found, e);
    var nodes: seq<Node> :| |nodes| == e.level && CallPath(env.world, env.start, nodes) && Yielded(env.world, nodes[e.level - 1], e);
    YieldedIsJoined(env.world, nodes[e.level - 1], e);
  }

  lemma StackAtDepth(env: Env, found: seq<Connection>, nodes: seq<Node>)
    requires Constant(env) && Stack(env, found, nodes) && nodes != []
    ensures AtDepth(env.world, env.start, |nodes|, nodes[|nodes| - 1])
  {
    hide Stack, CallPath, Joined, Ignored;
    StackIsPath(env, found, nodes);
  }

  lemma YieldedIsJoined(w: World, a: Node, c: Connection)
    requires Yielded(w, a, c)
    ensures Joined(w, false, a, c.node)
  {
    hide Yields, Edge, Ignored;
    EdgeYields(w, a, c.node, c.relationType, a.namespace, false);
  }

  /** A path of calls is a walk. */
  lemma {:induction false} PathIsWalk(w: World, start: Node, nodes: seq<Node>)
    requires CallPath(w, start, nodes)
    ensures Walk(w, false, |nodes| - 1, start, nodes[|nodes| - 1])
    decreases |nodes|
  {
    hide Ignored, Joined;
    if |nodes| > 1 {
      var init := nodes[..|nodes| - 1];
      forall i | 0 < i < |init|
        ensures FromTheOneBefore(w, init, i)
      {
        assert FromTheOneBefore(w, nodes, i);
      }
      assert FromTheOneBefore(w, nodes, |init|);
      PathIsWalk(w, start, init);
      WalkStep(w, false, |init| - 1, start, init[|init| - 1], nodes[|nodes| - 1]);
    }
  }

  /** Apart from the root no link is made up. */
  lemma NoLinkInvented(env: Env, s: State, i: nat)
    requires Constant(env) && Ok(env, s) && 0 < i < |s.total|
    ensures Real(env.world, env.start, s.total[i])
  {
    hide Founded, Deep, Real, Subsequence, AllPlaced, AllLinked;
    SubsequenceMembers(s.total[1..], s.found);
    assert s.total[i] == s.total[1..][i - 1] && s.total[1..][i - 1] in s.total[1..];
    var j :| 0 <= j < |s.found| && s.found[j] == s.total[i];
    assert Founded(env, s.found[..j], s.found[j]);
    FoundedIsDeep(env, s.found[..j], s.found[j]);
  }

  // ---------------------------------------------------------------- the edge list as a graph of names

  predicate SamePair(u: string, v: string, x: string, y: string) {
    (u == x && v == y) || (u == y && v == x)
  }

  /** Some entry runs between resources of these names. */
  ghost predicate NamesTold(total: seq<Connection>, x: string, y: string) {
    exists i :: 0 <= i < |total| && total[i].peer.Some? && SamePair(total[i].node.name, total[i].peer.value.name, x, y)
  }

  /** The resource `v` is found from `u`, which can be reached, and the connection names `u` as its peer. */
  ghost predicate Tie(w: World, start: Node, u: Node, v: Node, ty: RelType) {
    Reachable(w, false, start, u) && !Ignored(w, u) && Yields(w, u, v, ty, u, u.namespace, false)
  }

  /** Up to names the edge list is exactly the graph of the ties. */
  lemma NamesToldExactly(env: Env, s: State, x: string, y: string)
    requires Constant(env) && Settled(env.world, env.start) && Finished(env, s) && !Ignored(env.world, env.start) && x != "" && y != ""
    ensures NamesTold(s.total, x, y) <==>
            exists u, v, ty :: Tie(env.world, env.start, u, v, ty) && SamePair(u.name, v.name, x, y)
  {
    if NamesTold(s.total, x, y) {
      EntryIsTie(env, s, x, y);
    }
    if u, v, ty :| Tie(env.world, env.start, u, v, ty) && SamePair(u.name, v.name, x, y) {
      TieIsTold(env, s, u, v, ty);
    }
  }

  lemma RealIsTie(w: World, start: Node, c: Connection)
    requires Real(w, start, c) && c.peer.value != NOBODY
    ensures Tie(w, start, c.peer.value, c.node, c.relationType)
  {
    hide Walk, Ignored, Down, Up, OwnershipYields, CallPath;
    var nodes: seq<Node> :| |nodes| == c.level && CallPath(w, start, nodes) && Yielded(w, nodes[c.level - 1], c);
    var a := nodes[c.level - 1];
    PathIsWalk(w, start, nodes);
    EdgeYields(w, a, c.node, c.relationType, a.namespace, false);
    assert Walk(w, false, c.level - 1, start, a);
  }

  lemma EntryIsTie(env: Env, s: State, x: string, y: string)
    requires Constant(env) && Ok(env, s) && x != "" && y != "" && NamesTold(s.total, x, y)
    ensures exists u, v, ty :: Tie(env.world, env.start, u, v, ty) && SamePair(u.name, v.name, x, y)
  {
    OkIsRooted(env, s);
    hide Ok, Constant, Tie, Real;
    var i :| 0 <= i < |s.total| && s.total[i].peer.Some? && SamePair(s.total[i].node.name, s.total[i].peer.value.name, x, y);
    var c := s.total[i];
    NoLinkInvented(env, s, i);
    RealIsTie(env.world, env.start, c);
    assert SamePair(c.peer.value.name, c.node.name, x, y);
  }

  lemma TieIsTold(env: Env, s: State, u: Node, v: Node, ty: RelType)
    requires Constant(env) && Settled(env.world, env.start) && Finished(env, s) && !Ignored(env.world, env.start)
    requires Tie(env.world, env.start, u, v, ty)
    ensures NamesTold(s.total, u.name, v.name)
  {
    hide Ok, Closed, Settled, Constant, Ignored, Yields, Walk;
    VisitedExactly(env, s, u);
    TieIsSure(env.world, env.start, u, v, ty);
    NoVisitedLinkLost(env, s, u, v, ty, u);
    var i :| 0 <= i < |s.total| && Tells(s.total[i], Connection(0, v, Unset, Some(u)));
    assert SamePair(s.total[i].node.name, s.total[i].peer.value.name, u.name, v.name);
  }

  lemma TieIsSure(w: World, start: Node, u: Node, v: Node, ty: RelType)
    requires Settled(w, start) && Tie(w, start, u, v, ty)
    ensures Yields(w, u, v, ty, u, u.namespace, true)
  {
    EdgeYields(w, u, v, ty, u.namespace, false);
    assert Edge(w, u, v, ty, u.namespace, true);
    hide Settled, Owner, Child, Component, Reachable, Ignored, LabelDown, LabelUp, SpecLinked, AnnotationLinked;
  }

  /** Something other than the owner's finding of its child ties the two names. */
  ghost predicate OtherTie(w: World, start: Node, child: Node, owner: Node) {
    exists u, v, ty :: Tie(w, start, u, v, ty) && SamePair(u.name, v.name, child.name, owner.name)
                       && !(u == owner && v == child && ty == OwnerReference)
  }

  /** For an owner of the same kind findParentConnections leaves out the peer. Then the edge list names the two together exactly
      when the owner is not ignored and finds its child or component in turn, or something else ties their names. */
  lemma SameKindOwnerTold(env: Env, s: State, child: Node, owner: Node)
    requires Constant(env) && Settled(env.world, env.start) && Finished(env, s) && !Ignored(env.world, env.start)
    requires Reachable(env.world, false, env.start, child) && !Ignored(env.world, child)
    requires Owner(env.world, child, owner) && owner.kind == child.kind && owner.namespace == child.namespace && child.name != ""
    ensures NamesTold(s.total, child.name, owner.name) <==>
            OtherTie(env.world, env.start, child, owner)
            || (!Ignored(env.world, owner) && (Child(env.world, owner, child) || Component(env.world, owner, child)))
  {
    hide Constant, Settled, Finished, Ignored, Down, Up, Child, Component, Walk, NamesTold;
    NamesToldExactly(env, s, child.name, owner.name);
    SameKindTie(env.world, owner, child);
    OwnerReachable(env.world, env.start, child, owner);
    hide Owner, Yields, Reachable;
    if OtherTie(env.world, env.start, child, owner) {
      var u, v, ty :| Tie(env.world, env.start, u, v, ty) && SamePair(u.name, v.name, child.name, owner.name)
                      && !(u == owner && v == child && ty == OwnerReference);
      assert NamesTold(s.total, child.name, owner.name);
    } else if NamesTold(s.total, child.name, owner.name) {
      var u, v, ty :| Tie(env.world, env.start, u, v, ty) && SamePair(u.name, v.name, child.name, owner.name);
      assert u == owner && v == child && ty == OwnerReference;
    }
    if !Ignored(env.world, owner) && (Child(env.world, owner, child) || Component(env.world, owner, child)) {
      assert Tie(env.world, env.start, owner, child, OwnerReference) && SamePair(owner.name, child.name, child.name, owner.name);
    }
  }

  lemma OwnerReachable(w: World, start: Node, child: Node, owner: Node)
    requires Reachable(w, false, start, child) && !Ignored(w, child) && Owner(w, child, owner) && owner.namespace == child.namespace
    ensures Reachable(w, false, start, owner)
  {
    hide Walk, Owner, Ignored;
    assert Edge(w, child, owner, OwnerReference, child.namespace, false);
    assert Joined(w, false, child, owner);
    var n: nat :| Walk(w, false, n, start, child);
    WalkStep(w, false, n, start, child, owner);
  }

  lemma WalkStep(w: World, sure: bool, n: nat, a: Node, y: Node, x: Node)
    requires Walk(w, sure, n, a, y) && !Ignored(w, y) && Joined(w, sure, y, x)
    ensures Walk(w, sure, n + 1, a, x)
  {
  }

  /** Between two resources of one kind, an owner reference is found with its peer only from the owner's side. */
  lemma SameKindTie(w: World, owner: Node, child: Node)
    requires owner.kind == child.kind && owner.namespace == child.namespace && owner.kind != ""
    ensures Yields(w, owner, child, OwnerReference, owner, owner.namespace, false) <==> Child(w, owner, child) || Component(w, owner, child)
  {
    hide Child, Component, Owner, SpecLinked, AnnotationLinked, LabelDown, LabelUp;
  }

  // ---------------------------------------------------------------- where a run may start

  /** From all components one can walk back: because they are owned directly, or because trees of any shape are stored, objects
      have single owners, and nothing is ignored. */
  ghost predicate ComponentsKnown(w: World, namespace: string) {
    || ComponentsOwned(w, namespace)
    || (StoredTrees(w) && SingleOwners(w, namespace) && forall x :: !Ignored(w, x))
  }

  /** Start independence: asked about any resource that a run has discovered, a run discovers the same resources. */
  lemma StartIndependence(env: Env, s: State, other: Env, t: State, x: Node)
    requires Constant(env) && Finished(env, s) && Settled(env.world, env.start)
    requires Symmetric(env.world, env.start.namespace) && ComponentsKnown(env.world, env.start.namespace)
    requires Proper(env.world, env.start, env.start.namespace)
    requires other.start in Nodes(s.visited) && !Ignored(env.world, other.start)
    requires other.world == env.world.(original := other.start) && Constant(other) && Finished(other, t)
    requires !Ignored(env.world, x)
    ensures x in Nodes(s.visited) <==> x in Nodes(t.visited)
  {
    assert forall y :: Ignored(env.world, y) <==> Ignored(other.world, y);
    KnownComponentsReturn(env.world, env.start.namespace, false);
    hide Constant, Symmetric, Ok, Closed, Settled, Ignored, ComponentsKnown, ComponentsReturn;
    VisitedIsReachable(env, s, other.start);
    assert Reachable(env.world, false, env.start, other.start);
    SameNamespace(env, other.start);
    SettledElsewhere(env.world, env.start, other.start);
    VisitedExactly(env, s, x);
    VisitedExactly(other, t, x);
    SameReach(env.world, false, env.start, other.start, x);
  }

  lemma SettledElsewhere(w: World, start: Node, other: Node)
    requires Settled(w, start) && Symmetric(w, start.namespace) && ComponentsReturn(w, start.namespace, false)
    requires Proper(w, start, start.namespace) && !Ignored(w, other) && Reachable(w, false, start, other) && other.namespace == start.namespace
    ensures Settled(w.(original := other), other)
  {
    var there := w.(original := other);
    SymmetricNamespace(w, start.namespace);
    assert forall a :: Ignored(w, a) <==> Ignored(there, a);
    hide Symmetric, ComponentsReturn, Edge, Ignored, Walk, Proper;
    forall a, b, ty | Reachable(there, false, other, a) && !Ignored(there, a) && Edge(there, a, b, ty, a.namespace, false)
      ensures Edge(there, a, b, ty, a.namespace, true)
    {
      SameReach(w, false, start, other, a);
      var n: nat :| Walk(w, false, n, start, a);
      WalkStaysInNamespace(w, false, n, start, a);
      EdgesIgnoreTheOriginal(w, other, a, b, ty, false);
      EdgesIgnoreTheOriginal(w, other, a, b, ty, true);
    }
  }

  /** Without unambiguous fields: asked about a resource that a run has discovered, a run discovers nothing but what the first
      could have discovered; and all that surely is discovered, if that resource surely is. */
  lemma StartIndependenceOfSure(env: Env, s: State, other: Env, t: State, x: Node)
    requires Constant(env) && Ok(env, s)
    requires Symmetric(env.world, env.start.namespace) && ComponentsKnown(env.world, env.start.namespace)
    requires Proper(env.world, env.start, env.start.namespace)
    requires other.start in Nodes(s.visited) && !Ignored(env.world, other.start)
    requires other.world == env.world.(original := other.start) && Constant(other) && Finished(other, t)
    ensures x in Nodes(t.visited) ==> Reachable(env.world, false, env.start, x)
    ensures Reachable(env.world, true, env.start, other.start) && Reachable(env.world, true, env.start, x) && !Ignored(env.world, x) ==>
              x in Nodes(t.visited)
  {
    assert Ignored(env.world, x) <==> Ignored(other.world, x);
    KnownComponentsReturn(env.world, env.start.namespace, false);
    KnownComponentsReturn(env.world, env.start.namespace, true);
    hide Constant, Symmetric, Ok, Closed, Ignored, ComponentsKnown, ComponentsReturn, Walk, Proper;
    VisitedIsReachable(env, s, other.start);
    SameNamespace(env, other.start);
    if x in Nodes(t.visited) {
      VisitedIsReachable(other, t, x);
      SameReach(env.world, false, env.start, other.start, x);
    }
    if Reachable(env.world, true, env.start, other.start) && Reachable(env.world, true, env.start, x) {
      SameReach(env.world, true, env.start, other.start, x);
      var n: nat :| Walk(other.world, true, n, other.start, x);
      ReachableIsVisited(other, t, n, x);
    }
  }

  lemma KnownComponentsReturn(w: World, namespace: string, sure: bool)
    requires Symmetric(w, namespace) && ComponentsKnown(w, namespace)
    ensures ComponentsReturn(w, namespace, sure)
  {
    hide WorldOk, ComponentsOwned, StoredTrees, SingleOwners, Ignored, ComponentsReturn;
    if ComponentsOwned(w, namespace) {
      OwnedComponentsReturn(w, namespace, sure);
    } else {
      StoredComponentsReturn(w, namespace, sure);
    }
  }

  lemma SameNamespace(env: Env, x: Node)
    requires Reachable(env.world, false, env.start, x)
    ensures x.namespace == env.start.namespace
  {
    hide Walk;
    var n: nat :| Walk(env.world, false, n, env.start, x);
    WalkStaysInNamespace(env.world, false, n, env.start, x);
  }

  // ---------------------------------------------------------------- when a run ends

  /** All names of the world are scopes enough: no set of namespaces need be known in advance. */
  lemma ScopesExist(w: World)
    requires WorldOk(w) && NamespacesUnowned(w) && Named(w.original.name)
    ensures EnvOk(Env(w, StartOf(w), Names(w) + {StartOf(w).namespace}))
  {
    var env := Env(w, StartOf(w), Names(w) + {StartOf(w).namespace});
    hide WorldOk, NamespacesUnowned, Edge, Names;
    forall a: Node, b: Node, ty, targetNamespace | a.namespace in env.scopes && targetNamespace in env.scopes && b.kind == NAMESPACE
                                                   && Edge(w, a, b, ty, targetNamespace, false)
      ensures b.name in env.scopes
    {
      EdgeTargets(w, a, b, ty, targetNamespace, false);
    }
  }

  // ---------------------------------------------------------------- all results together

  /** What a run handed over, in order: each at the depth of the call that found it, and told of in the end; the edge list has
      its entries behind the root from there, and in that order. */
  ghost predicate HandedOver(w: World, start: Node, connections: seq<Connection>, found: seq<Connection>) {
    && connections != [] && Subsequence(connections[1..], found)
    && (forall j :: 0 <= j < |found| ==> Deep(w, start, found[..j], found[j]))
    && (forall c :: c in found ==> Linked(connections, c))
  }

  lemma FoundIsHandedOver(env: Env, s: State)
    requires Constant(env) && Ok(env, s)
    ensures HandedOver(env.world, env.start, s.total, s.found)
  {
    hide Deep, Founded, Subsequence, Linked;
    forall j | 0 <= j < |s.found|
      ensures Deep(env.world, env.start, s.found[..j], s.found[j])
    {
      LevelsAreDepths(env, s, j);
    }
  }

  /** All that can surely be reached is visited and linked up, and what is visited and linked up can be reached. */
  ghost predicate Exact(w: World, start: Node, visited: seq<Connection>, connections: seq<Connection>) {
    && (forall x :: Reachable(w, true, start, x) ==> x in Nodes(visited) || Ignored(w, x))
    && (forall i :: 0 <= i < |visited| ==> visited[i].level >= 1 && Walk(w, false, visited[i].level, start, visited[i].node)
                                           && AtDepth(w, start, visited[i].level, visited[i].node))
    && (forall a, b, ty, peer :: (Reachable(w, true, start, a) && !Ignored(w, a) && Yields(w, a, b, ty, peer, a.namespace, true)) ==>
                                   Told(connections, b, peer))
    && (forall i :: 0 < i < |connections| ==> Real(w, start, connections[i]))
    && exists found :: HandedOver(w, start, connections, found)
  }

  lemma FinishedIsExact(env: Env, s: State)
    requires Constant(env) && Finished(env, s)
    ensures Exact(env.world, env.start, s.visited, s.total)
  {
    FoundIsHandedOver(env, s);
    hide Yields, Ignored, Told, Real, HandedOver;
    forall x | Reachable(env.world, true, env.start, x)
      ensures x in Nodes(s.visited) || Ignored(env.world, x)
    {
      var n: nat :| Walk(env.world, true, n, env.start, x);
      ReachableIsVisited(env, s, n, x);
    }
    forall i | 0 <= i < |s.visited|
      ensures s.visited[i].level >= 1 && Walk(env.world, false, s.visited[i].level, env.start, s.visited[i].node)
      ensures AtDepth(env.world, env.start, s.visited[i].level, s.visited[i].node)
    {
      assert Placed(env, s.found, s.visited[i]);
      WithinIsWalk(env, s.visited[i].level, s.visited[i].node);
      VisitedLevel(env, s, i);
    }
    forall a, b, ty, peer | Reachable(env.world, true, env.start, a) && !Ignored(env.world, a)
                            && Yields(env.world, a, b, ty, peer, a.namespace, true)
      ensures Told(s.total, b, peer)
    {
      var n: nat :| Walk(env.world, true, n, env.start, a);
      ReachableIsVisited(env, s, n, a);
      NoVisitedLinkLost(env, s, a, b, ty, peer);
    }
    forall i | 0 < i < |s.total|
      ensures Real(env.world, env.start, s.total[i])
    {
      NoLinkInvented(env, s, i);
    }
  }

  function StartOf(w: World): Node {
    FrameNode(w.original.kind, w.original.name, w.original.namespace)
  }

  lemma OkIsRooted(env: Env, s: State)
    requires Ok(env, s)
    ensures Rooted(s.total, env.world.original) && (Anchored(s.total) || OnlyLoops(s.total))
  {
  }
}
