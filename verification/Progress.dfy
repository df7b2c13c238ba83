/** What a discovery run keeps: invariants of its state, what has been explored, and why it ends. */
module Progress {
  import opened Connections
  import opened EdgeList
  import opened LevelList
  import opened Graph
  import opened Relationships
  import opened Searches
  import Cluster
  import opened CompositionTree
  import CompositionStore

  /** A run: the world, the node it starts from, and the namespaces it may search in. A run in one namespace is one whose
      scopes are just that namespace. */
  datatype Env = Env(world: World, start: Node, scopes: set<string>)

  // ---------------------------------------------------------------- walks

  /** From `a` a run can go on to `b`: `b` is found in the namespace of `a`, and explored in that or another scope. */
  ghost predicate Step(env: Env, a: Node, b: Node) {
    && a.namespace in env.scopes && b.namespace in env.scopes
    && exists ty, targetNamespace ::
         targetNamespace in env.scopes && Edge(env.world, a, Node(b.kind, b.name, a.namespace), ty, targetNamespace, false)
  }

  /** A walk of at most `n` steps leads from the start to `x`, through nodes that are not ignored. */
  ghost predicate Within(env: Env, n: nat, x: Node) {
    x == env.start || (n > 0 && exists y :: Within(env, n - 1, y) && !Ignored(env.world, y) && Step(env, y, x))
  }

  lemma {:induction false} WithinMore(env: Env, n: nat, m: nat, x: Node)
    requires n <= m && Within(env, n, x)
    ensures Within(env, m, x)
    decreases n
  {
    hide Step, Ignored;
    if x != env.start {
      var y :| Within(env, n - 1, y) && !Ignored(env.world, y) && Step(env, y, x);
      WithinMore(env, n - 1, m - 1, y);
    }
  }

  lemma WithinNext(env: Env, n: nat, y: Node, x: Node)
    requires Within(env, n, y) && !Ignored(env.world, y) && Step(env, y, x)
    ensures Within(env, n + 1, x)
  {
  }

  // ---------------------------------------------------------------- what is assumed of a run

  /** All searches are in one namespace. */
  ghost predicate Constant(env: Env) {
    env.scopes == {env.start.namespace}
  }

  /** Namespaces that are found are scopes. */
  ghost predicate ScopesClosed(env: Env) {
    forall a: Node, b: Node, ty, targetNamespace ::
      (a.namespace in env.scopes && targetNamespace in env.scopes && b.kind == NAMESPACE
       && Edge(env.world, a, b, ty, targetNamespace, false)) ==> b.name in env.scopes
  }

  ghost predicate EnvOk(env: Env) {
    && WorldOk(env.world)
    && Named(env.start.name)
    && env.start.namespace in env.scopes
    && env.start == FrameNode(env.world.original.kind, env.world.original.name, env.world.original.namespace)
    && ScopesClosed(env)
    && (Constant(env) || NamespacesUnowned(env.world))
  }

  ghost function Universe(env: Env): set<Node> {
    set k, n, s | k in Kinds(env.world) + {env.start.kind} && n in Names(env.world) + {env.start.name} && s in env.scopes :: Node(k, n, s)
  }

  /** The node at which a call of GetRelatives stands: a Namespace is explored in itself. */
  function FrameNode(kind: string, instance: string, namespace: string): Node {
    Node(kind, instance, if kind == NAMESPACE then instance else namespace)
  }

  // ---------------------------------------------------------------- the state of a run

  /** The visited list, the two globals, all connections that were handed to AppendConnections so far, in their order, the nodes
      that calls of GetRelatives have entered, and the stack of those whose calls are still active. */
  datatype State = State(visited: seq<Connection>, total: seq<Connection>, namespaceToSearch: string, found: seq<Connection>,
                         entered: set<Node>, active: seq<Node>)

  /** `d` is a connection to `k`; with several scopes the call for it may be made in another. */
  ghost predicate LeadsTo(env: Env, d: Connection, k: Node) {
    d.node.kind == k.kind && d.node.name == k.name && (Constant(env) ==> d.node == k)
  }

  /** A stack of calls: the first is at the start, and each next one was made for a connection that had been handed over, and
      was found from the node below it, at its level. In one namespace no node is on it twice. */
  ghost predicate Stack(env: Env, found: seq<Connection>, nodes: seq<Node>) {
    && (nodes != [] ==> nodes[0] == env.start)
    && (forall i :: 0 < i < |nodes| ==> CalledFrom(env, found, i, nodes[i - 1], nodes[i]))
    && (Constant(env) ==> forall i, j :: 0 <= i < j < |nodes| ==> nodes[i] != nodes[j])
  }

  ghost predicate CalledFrom(env: Env, found: seq<Connection>, level: int, a: Node, k: Node) {
    !Ignored(env.world, a) && a.namespace in env.scopes && exists d :: d in found && LeadsTo(env, d, k) && IsRelative(env, a, level, d)
  }

  /** `c` was found from a node that is not ignored, whose call was as deep on a stack as the level says, and was one step after
      a walk to that node. */
  ghost predicate Founded(env: Env, found: seq<Connection>, c: Connection) {
    c.level >= 1 && exists nodes :: |nodes| == c.level && Stack(env, found, nodes) && FoundFrom(env, nodes[c.level - 1], c)
  }

  ghost predicate FoundFrom(env: Env, a: Node, c: Connection) {
    c.level >= 1 && Within(env, c.level - 1, a) && !Ignored(env.world, a) && a.namespace in env.scopes && IsRelative(env, a, c.level, c)
  }

  /** What was handed over was found from a node that had been called for before. */
  ghost predicate AllFounded(env: Env, found: seq<Connection>) {
    forall j :: 0 <= j < |found| ==> Founded(env, found[..j], found[j])
  }

  /** A node has its level from the depth of a call at it, or from having been found at that level. */
  ghost predicate Leveled(env: Env, found: seq<Connection>, level: int, n: Node) {
    || (exists nodes :: |nodes| == level && Stack(env, found, nodes) && |nodes| >= 1 && nodes[|nodes| - 1] == n)
    || (exists e: Connection :: e.node == n && e.level == level && Founded(env, found, e))
  }

  /** A visited entry has a level of at least 1, and a walk that is no longer. */
  ghost predicate Placed(env: Env, found: seq<Connection>, c: Connection) {
    c.level >= 1 && Within(env, c.level, c.node) && c.node in Universe(env) && Leveled(env, found, c.level, c.node)
  }

  ghost predicate AllPlaced(env: Env, found: seq<Connection>, list: seq<Connection>) {
    forall i :: 0 <= i < |list| ==> Placed(env, found, list[i])
  }

  /** The second sequence goes on after the first. */
  ghost predicate Longer(found: seq<Connection>, more: seq<Connection>) {
    found <= more && forall c :: c in found ==> c in more
  }

  lemma StackMore(env: Env, found: seq<Connection>, more: seq<Connection>, nodes: seq<Node>)
    requires Longer(found, more) && Stack(env, found, nodes)
    ensures Stack(env, more, nodes)
  {
    hide Ignored, IsRelative, LeadsTo;
    forall i | 0 < i < |nodes|
      ensures CalledFrom(env, more, i, nodes[i - 1], nodes[i])
    {
      assert CalledFrom(env, found, i, nodes[i - 1], nodes[i]);
    }
  }

  lemma FoundedMore(env: Env, found: seq<Connection>, more: seq<Connection>, c: Connection)
    requires Longer(found, more) && Founded(env, found, c)
    ensures Founded(env, more, c)
  {
    hide Stack, FoundFrom;
    var nodes :| |nodes| == c.level && Stack(env, found, nodes) && FoundFrom(env, nodes[c.level - 1], c);
    StackMore(env, found, more, nodes);
  }

  lemma LeveledMore(env: Env, found: seq<Connection>, more: seq<Connection>, level: int, n: Node)
    requires Longer(found, more) && Leveled(env, found, level, n)
    ensures Leveled(env, more, level, n)
  {
    hide Stack, Founded;
    if nodes :| |nodes| == level && Stack(env, found, nodes) && |nodes| >= 1 && nodes[|nodes| - 1] == n {
      StackMore(env, found, more, nodes);
    } else {
      var e: Connection :| e.node == n && e.level == level && Founded(env, found, e);
      FoundedMore(env, found, more, e);
    }
  }

  lemma PlacedMore(env: Env, found: seq<Connection>, more: seq<Connection>, list: seq<Connection>)
    requires Longer(found, more) && AllPlaced(env, found, list)
    ensures AllPlaced(env, more, list)
  {
    hide Within, Universe, Leveled;
    forall i | 0 <= i < |list|
      ensures Leveled(env, more, list[i].level, list[i].node)
    {
      assert Placed(env, found, list[i]);
      LeveledMore(env, found, more, list[i].level, list[i].node);
    }
  }

  ghost predicate AllLinked(total: seq<Connection>, found: seq<Connection>) {
    forall c :: c in found ==> Linked(total, c)
  }

  /** Apart from the root, every entry is a connection that was handed over, and they stand in the order in which they were. */
  ghost predicate OnlyFound(total: seq<Connection>, found: seq<Connection>) {
    total != [] && Subsequence(total[1..], found)
  }

  ghost predicate Ok(env: Env, s: State) {
    && UniqueNodes(s.visited)
    && AllPlaced(env, s.found, s.visited)
    && AllLinked(s.total, s.found)
    && OnlyFound(s.total, s.found)
    && AllFounded(env, s.found)
    && Rooted(s.total, env.world.original)
    && (Anchored(s.total) || OnlyLoops(s.total))
    && EnteredDone(env, s)
    && (s.namespaceToSearch == "" || s.namespaceToSearch in env.scopes)
  }

  /** What every part of a run keeps of an earlier state. */
  ghost predicate Extends(s: State, t: State) {
    && Grows(s.visited, t.visited)
    && Nodes(s.visited) <= Nodes(t.visited)
    && Longer(s.found, t.found)
    && |s.total| <= |t.total|
    && (Anchored(s.total) ==> Anchored(t.total))
    && s.entered <= t.entered && s.active == t.active
    && (s.namespaceToSearch != "" ==> t.namespaceToSearch != "")
  }

  /** NamespaceToSearch changes only when something new was visited. */
  ghost predicate Steady(env: Env, s: State, t: State) {
    t.namespaceToSearch == s.namespaceToSearch || Nodes(s.visited) < Nodes(t.visited) || Constant(env)
  }

  ghost predicate Advances(env: Env, s: State, t: State) {
    Extends(s, t) && Steady(env, s, t)
  }

  lemma ExtendsTransitive(s: State, t: State, u: State)
    requires Extends(s, t) && Extends(t, u)
    ensures Extends(s, u)
  {
  }

  lemma AdvancesTransitive(env: Env, s: State, t: State, u: State)
    requires Advances(env, s, t) && Advances(env, t, u)
    ensures Advances(env, s, u)
  {
    ExtendsTransitive(s, t, u);
  }

  lemma AdvancesReflexive(env: Env, s: State)
    ensures Advances(env, s, s)
  {
  }

  // ---------------------------------------------------------------- what has been explored

  /** `rel` leads from `a` to `b` in any case: whatever the order of map keys, and whatever scope is searched for targets. */
  ghost predicate AlwaysLeads(env: Env, down: bool, a: Node, rel: Relationship, b: Node) {
    forall targetNamespace :: targetNamespace in env.scopes ==> Leads(env.world, down, a, rel, b, targetNamespace, true)
  }

  ghost predicate AlwaysDown(env: Env, a: Node, b: Node, ty: RelType) {
    exists rel :: rel in RelsOf(env.world, a.kind) && b.kind in rel.targetKinds && ty == TypeOf(rel) && AlwaysLeads(env, true, a, rel, b)
  }

  ghost predicate AlwaysUp(env: Env, a: Node, b: Node, ty: RelType) {
    exists rel :: rel in RelsOf(env.world, b.kind) && a.kind in rel.targetKinds && ty == TypeOf(rel) && AlwaysLeads(env, false, a, rel, b)
  }

  /** Exploring `a` yields this connection in any case. */
  ghost predicate AlwaysYields(env: Env, a: Node, b: Node, ty: RelType, peer: Node) {
    && b.namespace == a.namespace
    && ((peer == a && (AlwaysDown(env, a, b, ty) || AlwaysUp(env, a, b, ty)))
        || (ty == OwnerReference && OwnershipYields(env.world, a, b, peer)))
  }

  /** `b` is ignored or visited, possibly in another namespace if the run has several. */
  ghost predicate Arrived(env: Env, s: State, b: Node) {
    Ignored(env.world, b) || if Constant(env) then b in Nodes(s.visited) else exists n :: Node(b.kind, b.name, n) in Nodes(s.visited)
  }

  /** A run has recorded the connection to `b` with the given peer, and arrived at `b`. */
  ghost predicate Noted(env: Env, s: State, b: Node, ty: RelType, peer: Node) {
    Arrived(env, s, b) && exists c :: c in s.found && c.node == b && c.relationType == ty && c.peer == Some(peer)
  }

  /** All that `a` yields in any case has been followed. */
  ghost predicate Done(env: Env, s: State, a: Node) {
    forall b, ty, peer :: AlwaysYields(env, a, b, ty, peer) ==> Noted(env, s, b, ty, peer)
  }

  /** Whatever a call has entered and left has been explored to the end. */
  ghost predicate EnteredDone(env: Env, s: State) {
    forall a :: a in s.entered && a !in s.active ==> Done(env, s, a)
  }

  /** In a run in one namespace, every visited node that is neither ignored nor pending has been explored to the end. */
  ghost predicate Closed(env: Env, s: State, pending: set<Node>) {
    Constant(env) ==>
      forall a :: a in Nodes(s.visited) && !Ignored(env.world, a) && a !in pending ==> Done(env, s, a)
  }

  lemma ArrivedStays(env: Env, s: State, t: State, b: Node)
    requires Arrived(env, s, b) && Nodes(s.visited) <= Nodes(t.visited)
    ensures Arrived(env, t, b)
  {
    hide Ignored, Constant, Nodes;
  }

  lemma NotedStays(env: Env, s: State, t: State, b: Node, ty: RelType, peer: Node)
    requires Noted(env, s, b, ty, peer)
    requires Nodes(s.visited) <= Nodes(t.visited) && Longer(s.found, t.found)
    ensures Noted(env, t, b, ty, peer)
  {
    hide Arrived, Nodes;
    ArrivedStays(env, s, t, b);
  }

  lemma DoneStays(env: Env, s: State, t: State, a: Node)
    requires Done(env, s, a)
    requires Nodes(s.visited) <= Nodes(t.visited) && Longer(s.found, t.found)
    ensures Done(env, t, a)
  {
    hide AlwaysYields, Noted;
    forall b, ty, peer | AlwaysYields(env, a, b, ty, peer)
      ensures Noted(env, t, b, ty, peer)
    {
      NotedStays(env, s, t, b, ty, peer);
    }
  }

  lemma EnteredStays(env: Env, s: State, t: State)
    requires EnteredDone(env, s)
    requires Nodes(s.visited) <= Nodes(t.visited) && Longer(s.found, t.found)
    requires forall a :: a in t.entered && a !in t.active ==> a in s.entered && a !in s.active
    ensures EnteredDone(env, t)
  {
    hide Done;
    forall a | a in t.entered && a !in t.active
      ensures Done(env, t, a)
    {
      DoneStays(env, s, t, a);
    }
  }

  /** Newly marked nodes are pending, everything else stays as explored as it was. */
  lemma ClosedStays(env: Env, s: State, t: State, pending: set<Node>, more: set<Node>)
    requires Closed(env, s, pending)
    requires Nodes(s.visited) <= Nodes(t.visited) && Longer(s.found, t.found)
    requires Nodes(t.visited) <= Nodes(s.visited) + more && pending <= more
    ensures Closed(env, t, more)
  {
    hide Done, Ignored;
    if Constant(env) {
      forall a | a in Nodes(t.visited) && !Ignored(env.world, a) && a !in more
        ensures Done(env, t, a)
      {
        DoneStays(env, s, t, a);
      }
    }
  }

  lemma ClosedWith(env: Env, s: State, pending: set<Node>, a: Node)
    requires Closed(env, s, pending + {a})
    requires Constant(env) ==> Done(env, s, a)
    ensures Closed(env, s, pending - {a})
  {
  }

  // ---------------------------------------------------------------- the two ways a state changes

  /** A connection is handed to AppendConnections. */
  function Record(s: State, c: Connection): State
    requires NoNilPeer(s.total, c)
  {
    s.(total := Appended(s.total, c), found := s.found + [c])
  }

  lemma Recorded(env: Env, s: State, c: Connection, pending: set<Node>)
    requires Ok(env, s) && Closed(env, s, pending)
    requires EnvOk(env) && Founded(env, s.found, c) && c.node.name != ""
    requires c.level > 1 ==> Anchored(s.total)
    ensures NoNilPeer(s.total, c)
    ensures !IsHead(s.total, c.node) ==> Anchored(Record(s, c).total)
    ensures Ok(env, Record(s, c)) && Closed(env, Record(s, c), pending) && Advances(env, s, Record(s, c))
  {
    hide EnvOk, Closed, EnteredDone, AllPlaced, Linked, Founded, Appended, Anchored, OnlyLoops, IsHead, FromHead, OnlyFound;
    FoundedHasPeer(env, s.found, c);
    FoundedFromHead(env, s.total, s.found, c);
    StartNamed(env);
    AppendedRooted(s.total, c, env.world.original);
    AppendedAnchored(s.total, c, env.world.original);
    AddedIsLinked(s.total, c);
    AppendedOnlyFound(s.total, s.found, c, env.world.original);
    var t := Record(s, c);
    forall x | x in t.found
      ensures Linked(t.total, x)
    {
      if x in s.found {
        LinkSurvives(s.total, c, x);
      }
    }
    RecordedFounded(env, s.found, c);
    PlacedMore(env, s.found, t.found, s.visited);
    ClosedStays(env, s, t, pending, pending);
    EnteredStays(env, s, t);
  }

  lemma RecordedFounded(env: Env, found: seq<Connection>, c: Connection)
    requires AllFounded(env, found) && Founded(env, found, c)
    ensures AllFounded(env, found + [c])
  {
    hide Founded;
    var more := found + [c];
    forall j | 0 <= j < |more|
      ensures Founded(env, more[..j], more[j])
    {
      assert more[..j] == if j < |found| then found[..j] else found;
    }
  }

  lemma FoundedHasPeer(env: Env, found: seq<Connection>, c: Connection)
    requires Founded(env, found, c)
    ensures c.level >= 1 && c.peer.Some?
  {
  }

  lemma StartNamed(env: Env)
    requires EnvOk(env)
    ensures env.world.original.name != ""
  {
  }

  /** What is found at Level 1 is found from the start. */
  lemma FoundedFromHead(env: Env, total: seq<Connection>, found: seq<Connection>, c: Connection)
    requires EnvOk(env) && Rooted(total, env.world.original) && Founded(env, found, c)
    ensures c.level == 1 ==> FromHead(total, c)
  {
    hide Ignored, Edge;
  }

  /** A relative of the start is not the start. */
  lemma LeavesHead(env: Env, s: State, a: Node, level: int, c: Connection)
    requires EnvOk(env) && Ok(env, s) && Exploring(env, s, level, a) && IsRelative(env, a, level, c)
    requires level == 1 ==> c.node != a
    ensures level == 1 ==> !IsHead(s.total, c.node)
  {
    hide Ignored, AllPlaced, Anchored, OnlyLoops;
  }

  lemma AppendedOnlyFound(total: seq<Connection>, found: seq<Connection>, c: Connection, root: Node)
    requires NoNilPeer(total, c) && c.node.name != "" && Rooted(total, root) && Rooted(Appended(total, c), root)
    requires OnlyFound(total, found)
    ensures OnlyFound(Appended(total, c), found + [c])
  {
    hide Appended, Subsequence;
    AppendedAtEnd(total, c);
    AppendedInOrder(total, c, Appended(total, c), found);
  }

  /** Connections are merged into the visited list. */
  function Mark(s: State, conns: seq<Connection>): State {
    s.(visited := Merged(s.visited, conns))
  }

  lemma MergedPlaced(env: Env, found: seq<Connection>, all: seq<Connection>, conns: seq<Connection>)
    requires AllPlaced(env, found, all) && AllPlaced(env, found, conns)
    ensures AllPlaced(env, found, Merged(all, conns))
  {
    hide Within, Universe, Leveled;
    forall i | 0 <= i < |Merged(all, conns)|
      ensures Placed(env, found, Merged(all, conns)[i])
    {
      MergedLevels(all, conns, i);
      var e := Merged(all, conns)[i];
      if HasLevel(all, e.node, e.level) {
        var j :| 0 <= j < |all| && all[j].node == e.node && all[j].level == e.level;
        assert Placed(env, found, all[j]);
      } else {
        var j :| 0 <= j < |conns| && conns[j].node == e.node && conns[j].level == e.level;
        assert Placed(env, found, conns[j]);
      }
    }
  }

  lemma Marked(env: Env, s: State, conns: seq<Connection>, pending: set<Node>)
    requires Ok(env, s) && Closed(env, s, pending) && AllPlaced(env, s.found, conns)
    ensures var t := Mark(s, conns);
            && Ok(env, t) && Extends(s, t) && t.namespaceToSearch == s.namespaceToSearch
            && Nodes(t.visited) == Nodes(s.visited) + Nodes(conns)
            && Closed(env, t, pending + (Nodes(conns) - Nodes(s.visited)))
  {
    hide Closed, EnteredDone, AllPlaced, Grows, Merged, Rooted, AllLinked, OnlyFound, AllFounded;
    var t := Mark(s, conns);
    MergedKeeps(s.visited, conns);
    MergedPlaced(env, s.found, s.visited, conns);
    ClosedStays(env, s, t, pending, pending + (Nodes(conns) - Nodes(s.visited)));
    EnteredStays(env, s, t);
  }

  // ---------------------------------------------------------------- measures

  /** How many nodes are not visited yet. */
  ghost function Room(env: Env, visited: seq<Connection>): nat {
    |Universe(env) - Nodes(visited)|
  }

  /** The same, for a call of GetRelatives at the node `k`. */
  ghost function Fuel(env: Env, visited: seq<Connection>, k: Node): nat {
    |Universe(env) - Nodes(visited) - {k}|
  }

  /** Whether NamespaceToSearch would move the search somewhere else. */
  function Flag(namespace: string, namespaceToSearch: string): nat {
    if namespaceToSearch != "" && namespace != namespaceToSearch then 1 else 0
  }

  lemma Smaller(a: set<Node>, b: set<Node>)
    requires a <= b
    ensures |a| <= |b|
    ensures a < b ==> |a| < |b|
  {
    assert b == a + (b - a);
  }

  lemma RoomShrinks(env: Env, v: seq<Connection>, w: seq<Connection>)
    requires Nodes(v) <= Nodes(w)
    ensures Room(env, w) <= Room(env, v)
    ensures Nodes(v) < Nodes(w) <= Universe(env) ==> Room(env, w) < Room(env, v)
  {
    hide Universe, Nodes;
    Smaller(Universe(env) - Nodes(w), Universe(env) - Nodes(v));
    if Nodes(v) < Nodes(w) <= Universe(env) {
      var x :| x in Nodes(w) && x !in Nodes(v);
      assert x in Universe(env) - Nodes(v) && x !in Universe(env) - Nodes(w);
    }
  }

  lemma PlacedInUniverse(env: Env, found: seq<Connection>, visited: seq<Connection>)
    requires AllPlaced(env, found, visited)
    ensures Nodes(visited) <= Universe(env)
  {
    hide Within, Universe;
  }

  /** Along a run the measure of a frame does not rise. */
  lemma MeasureStays(env: Env, s: State, t: State, a: Node)
    requires Ok(env, s) && Ok(env, t) && Advances(env, s, t) && a.namespace in env.scopes
    ensures || Room(env, t.visited) < Room(env, s.visited)
            || (Room(env, t.visited) == Room(env, s.visited)
                && Flag(a.namespace, t.namespaceToSearch) <= Flag(a.namespace, s.namespaceToSearch))
  {
    hide Universe, Nodes, UniqueNodes, AllPlaced, AllLinked, Rooted, Grows, Room;
    PlacedInUniverse(env, t.found, t.visited);
    RoomShrinks(env, s.visited, t.visited);
  }

  // ---------------------------------------------------------------- from a node to its relatives

  /** The frame that explores `a` at `level`: its call is on top of the stack, at that depth, `a` is visited, and a walk of fewer
      than `level` steps leads to it. */
  ghost predicate Exploring(env: Env, s: State, level: int, a: Node) {
    && level >= 1 && OnStack(env, s, level, a) && a in Nodes(s.visited) && a.namespace in env.scopes
    && Within(env, level - 1, a) && !Ignored(env.world, a) && Named(a.name)
    && (level > 1 ==> Anchored(s.total))
  }

  ghost predicate OnStack(env: Env, s: State, level: int, a: Node) {
    && Stack(env, s.found, s.active) && |s.active| == level >= 1 && s.active[level - 1] == a
    && forall x :: x in s.active ==> x in Nodes(s.visited)
  }

  /** `c` was found from `a` at `level`. */
  ghost predicate IsRelative(env: Env, a: Node, level: int, c: Connection) {
    && c.level == level && c.peer.Some?
    && exists targetNamespace :: targetNamespace in env.scopes
                                 && Yields(env.world, a, c.node, c.relationType, c.peer.value, targetNamespace, false)
  }

  ghost predicate AreRelatives(env: Env, a: Node, level: int, conns: seq<Connection>) {
    forall i :: 0 <= i < |conns| ==> IsRelative(env, a, level, conns[i])
  }

  /** A call of GetRelatives may be made at the node `k`: its level is its depth, and NamespaceToSearch takes precedence over the
      namespace of the node it is made from. */
  ghost predicate Callable(env: Env, s: State, level: int, k: Node) {
    && level >= 1 && MayStack(env, s, level, k) && k in Universe(env) && k.namespace in env.scopes
    && Within(env, level - 1, k) && Named(k.name)
  }

  ghost predicate MayStack(env: Env, s: State, level: int, k: Node) {
    && level == |s.active| + 1 && Stack(env, s.found, s.active + [k])
    && (s.active != [] ==> k == FrameNode(k.kind, k.name, TargetNamespace(s.namespaceToSearch, s.active[|s.active| - 1].namespace)))
    && forall x :: x in s.active ==> x in Nodes(s.visited)
  }

  lemma StartCallable(env: Env, s: State)
    requires EnvOk(env) && s.active == []
    ensures Callable(env, s, 1, env.start)
  {
  }

  lemma RelativeStep(env: Env, a: Node, level: int, c: Connection, namespace: string)
    requires EnvOk(env) && a.namespace in env.scopes && namespace in env.scopes && IsRelative(env, a, level, c)
    ensures c.node.namespace == a.namespace && Named(c.node.name)
    ensures c.node in Universe(env) && Step(env, a, c.node)
    ensures FrameNode(c.node.kind, c.node.name, namespace) in Universe(env)
    ensures Step(env, a, FrameNode(c.node.kind, c.node.name, namespace))
  {
    var targetNamespace :| targetNamespace in env.scopes
                           && Yields(env.world, a, c.node, c.relationType, c.peer.value, targetNamespace, false);
    EdgeYields(env.world, a, c.node, c.relationType, targetNamespace, false);
    hide Yields;
    EdgeTargets(env.world, a, c.node, c.relationType, targetNamespace, false);
    hide Edge, Kinds, Names, WorldOk, NamespacesUnowned;
    assert c.node == Node(c.node.kind, c.node.name, a.namespace);
  }

  /** The call for a relative, after it was handed over. */
  lemma RelativeCall(env: Env, s: State, a: Node, level: int, c: Connection, namespace: string)
    requires EnvOk(env) && Exploring(env, s, level, a) && namespace in env.scopes && IsRelative(env, a, level, c)
    requires namespace == TargetNamespace(s.namespaceToSearch, a.namespace)
    requires c in s.found && (Constant(env) ==> c.node !in s.active)
    ensures Callable(env, s, level + 1, FrameNode(c.node.kind, c.node.name, namespace))
  {
    hide EnvOk, Edge, Universe, Ignored, Within, Yields, Anchored, Stack;
    RelativeStep(env, a, level, c, namespace);
    WithinNext(env, level - 1, a, FrameNode(c.node.kind, c.node.name, namespace));
    ConstantCall(env, a, level, c, namespace);
    Pushed(env, s, a, level, c, FrameNode(c.node.kind, c.node.name, namespace));
  }

  lemma Pushed(env: Env, s: State, a: Node, level: int, c: Connection, k: Node)
    requires level >= 1 && OnStack(env, s, level, a) && !Ignored(env.world, a) && a.namespace in env.scopes
    requires k == FrameNode(k.kind, k.name, TargetNamespace(s.namespaceToSearch, a.namespace))
    requires IsRelative(env, a, level, c) && c in s.found && LeadsTo(env, c, k) && (Constant(env) ==> k !in s.active)
    ensures MayStack(env, s, level + 1, k)
  {
    hide Ignored, IsRelative, LeadsTo;
    var nodes := s.active + [k];
    forall i | 0 < i < |nodes|
      ensures CalledFrom(env, s.found, i, nodes[i - 1], nodes[i])
    {
      assert i < |s.active| ==> CalledFrom(env, s.found, i, s.active[i - 1], s.active[i]);
    }
  }

  /** Where a relative is placed. */
  lemma RelativePlaced(env: Env, s: State, a: Node, level: int, c: Connection)
    requires EnvOk(env) && Exploring(env, s, level, a) && IsRelative(env, a, level, c)
    ensures Placed(env, s.found, c)
  {
    hide EnvOk, Edge, Universe, Ignored, Within, Yields, Anchored, Stack, Founded;
    RelativeStep(env, a, level, c, a.namespace);
    WithinNext(env, level - 1, a, c.node);
    RelativeFounded(env, s, a, level, c);
  }

  lemma RelativeFounded(env: Env, s: State, a: Node, level: int, c: Connection)
    requires Exploring(env, s, level, a) && IsRelative(env, a, level, c)
    ensures Founded(env, s.found, c)
  {
    hide Within, Ignored, Yields, Anchored, Stack;
    assert FoundFrom(env, s.active[level - 1], c);
  }

  lemma RelativesPlaced(env: Env, s: State, a: Node, level: int, conns: seq<Connection>)
    requires EnvOk(env) && Exploring(env, s, level, a) && AreRelatives(env, a, level, conns)
    ensures AllPlaced(env, s.found, conns)
  {
    hide EnvOk, IsRelative, Placed;
    forall i | 0 <= i < |conns|
      ensures Placed(env, s.found, conns[i])
    {
      RelativePlaced(env, s, a, level, conns[i]);
    }
  }

  lemma FuelAtMost(env: Env, v: seq<Connection>, w: seq<Connection>, k: Node)
    requires Nodes(v) <= Nodes(w)
    ensures Fuel(env, w, k) <= Room(env, v)
    ensures Nodes(v) < Nodes(w) <= Universe(env) ==> Fuel(env, w, k) < Room(env, v)
    ensures k in Universe(env) && k !in Nodes(v) ==> Fuel(env, w, k) < Room(env, v)
  {
    hide Universe, Nodes;
    Smaller(Universe(env) - Nodes(w) - {k}, Universe(env) - Nodes(v));
    if Nodes(v) < Nodes(w) <= Universe(env) {
      RoomShrinks(env, v, w);
      Smaller(Universe(env) - Nodes(w) - {k}, Universe(env) - Nodes(w));
    }
    if k in Universe(env) && k !in Nodes(v) {
      assert k in Universe(env) - Nodes(v);
    }
  }

  /** A call at the node itself, once it is visited, has the room of the rest. */
  lemma FuelVisited(env: Env, v: seq<Connection>, w: seq<Connection>, k: Node)
    requires Nodes(w) == Nodes(v) + {k}
    ensures Room(env, w) == Fuel(env, v, k)
  {
    hide Universe, Nodes;
    assert Universe(env) - Nodes(w) == Universe(env) - Nodes(v) - {k};
  }

  /** Where the namespace of the next call comes from. */
  ghost predicate CallNamespace(env: Env, s: State, t: State, a: Node, namespace: string) {
    && namespace in env.scopes
    && (t.namespaceToSearch != "" ==> namespace == t.namespaceToSearch)
    && (Nodes(t.visited) == Nodes(s.visited) && t.namespaceToSearch == "" && !Constant(env) ==> namespace == a.namespace)
  }

  /** The measure drops at a call for a relative that was not visited when the frame `s` began, although it is not marked. */
  lemma UnmarkedCallDrops(env: Env, s: State, t: State, a: Node, level: int, c: Connection, namespace: string)
    requires EnvOk(env) && Ok(env, s) && Ok(env, t) && Advances(env, s, t)
    requires a.namespace in env.scopes && IsRelative(env, a, level, c)
    requires c.node !in Nodes(s.visited)
    requires c.node.kind != NAMESPACE || Constant(env)
    requires CallNamespace(env, s, t, a, namespace)
    ensures var k := FrameNode(c.node.kind, c.node.name, namespace);
            || Fuel(env, t.visited, k) < Room(env, s.visited)
            || (Fuel(env, t.visited, k) == Room(env, s.visited)
                && Flag(namespace, t.namespaceToSearch) < Flag(a.namespace, s.namespaceToSearch))
  {
    hide EnvOk, Universe, Nodes, Grows, UniqueNodes, AllPlaced, AllLinked, Rooted, IsRelative, Room, Fuel;
    var k := FrameNode(c.node.kind, c.node.name, namespace);
    RelativeStep(env, a, level, c, namespace);
    PlacedInUniverse(env, t.found, t.visited);
    FuelAtMost(env, s.visited, t.visited, k);
    if Nodes(t.visited) == Nodes(s.visited) && k in Nodes(s.visited) {
      ConstantCall(env, a, level, c, namespace);
    }
  }

  /** In one namespace a relative is called for at the very node that was found. */
  lemma ConstantCall(env: Env, a: Node, level: int, c: Connection, namespace: string)
    requires EnvOk(env) && a.namespace in env.scopes && namespace in env.scopes && IsRelative(env, a, level, c)
    ensures Constant(env) ==> FrameNode(c.node.kind, c.node.name, namespace) == c.node
  {
    if Constant(env) {
      RelativeStep(env, a, level, c, namespace);
      if c.node.kind == NAMESPACE {
        var targetNamespace :| targetNamespace in env.scopes
                               && Yields(env.world, a, c.node, c.relationType, c.peer.value, targetNamespace, false);
        EdgeYields(env.world, a, c.node, c.relationType, targetNamespace, false);
        assert c.node.name in env.scopes;
      }
    }
  }

  // ---------------------------------------------------------------- entering a call

  lemma IgnoredNotPending(env: Env, s: State, pending: set<Node>, k: Node)
    requires Closed(env, s, pending) && Ignored(env.world, k)
    ensures Closed(env, s, pending - {k})
  {
    hide Done, Ignored;
  }

  /** Switching NamespaceToSearch to another scope changes nothing else. */
  lemma Switched(env: Env, s: State, t: State, pending: set<Node>)
    requires Ok(env, s) && Closed(env, s, pending)
    requires t == s.(namespaceToSearch := t.namespaceToSearch)
    requires t.namespaceToSearch == s.namespaceToSearch || (t.namespaceToSearch in env.scopes && t.namespaceToSearch != "")
    ensures Ok(env, t) && Closed(env, t, pending) && Extends(s, t)
  {
    hide EnteredDone;
    ClosedStays(env, s, t, pending, pending);
    EnteredStays(env, s, t);
  }

  lemma NodesOfOne(c: Connection)
    ensures Nodes([c]) == {c.node}
  {
    assert [c][0] == c;
  }

  /** The entry of a call is placed. */
  lemma EntryPlaced(env: Env, s: State, level: int, c: Connection)
    requires Callable(env, s, level, c.node) && c.level == level
    ensures AllPlaced(env, s.found, [c])
  {
    WithinMore(env, level - 1, level, c.node);
    hide Within, Universe, Stack;
    var nodes := s.active + [c.node];
    assert nodes[|nodes| - 1] == c.node;
  }

  // ---------------------------------------------------------------- pending relatives

  lemma NodesOfTail(conns: seq<Connection>, i: nat)
    requires i < |conns|
    ensures Nodes(conns[i..]) == {conns[i].node} + Nodes(conns[i + 1..])
  {
    var tail, rest := conns[i..], conns[i + 1..];
    forall n | n in Nodes(rest)
      ensures n in Nodes(tail)
    {
      var j :| 0 <= j < |rest| && rest[j].node == n;
      assert tail[j + 1].node == n;
    }
    forall n | n in Nodes(tail)
      ensures n == conns[i].node || n in Nodes(rest)
    {
      var j :| 0 <= j < |tail| && tail[j].node == n;
      if j > 0 {
        assert rest[j - 1].node == n;
      }
    }
    assert tail[0].node == conns[i].node;
  }

  /** Once the call for relative i has returned, only the relatives after it are pending. */
  lemma OneLessPending(env: Env, s: State, pending: set<Node>, conns: seq<Connection>, i: nat, k: Node)
    requires i < |conns|
    requires Closed(env, s, pending + Nodes(conns[i..]) - {k})
    requires Constant(env) ==> k == conns[i].node
    ensures Closed(env, s, pending + Nodes(conns[i + 1..]))
  {
    hide Done, Ignored;
    NodesOfTail(conns, i);
    hide Nodes;
    if Constant(env) {
      ClosedMore(env, s, pending + Nodes(conns[i..]) - {k}, pending + Nodes(conns[i + 1..]));
    }
  }

  lemma ClosedMore(env: Env, s: State, pending: set<Node>, more: set<Node>)
    requires Closed(env, s, pending) && pending <= more
    ensures Closed(env, s, more)
  {
    hide Done, Ignored;
  }

  lemma ExploringStays(env: Env, s: State, t: State, level: int, a: Node)
    requires Exploring(env, s, level, a) && Extends(s, t)
    ensures Exploring(env, t, level, a)
  {
    hide Within, Ignored;
  }

  /** Where the loops over owners, children and components pick up the namespace: as long as nothing changed, it is the frame's. */
  ghost predicate FirstNamespace(env: Env, s: State, t: State, a: Node, namespace: string) {
    && namespace in env.scopes
    && (Nodes(t.visited) == Nodes(s.visited) && s.namespaceToSearch == "" && !Constant(env) ==> namespace == a.namespace)
  }

  lemma FirstNamespaceHolds(env: Env, s: State, a: Node)
    requires a.namespace in env.scopes
    ensures FirstNamespace(env, s, s, a, a.namespace)
  {
  }

  lemma FirstNamespaceStays(env: Env, s: State, t: State, u: State, a: Node, namespace: string)
    requires FirstNamespace(env, s, t, a, namespace) && Extends(s, t) && Extends(t, u)
    ensures FirstNamespace(env, s, u, a, namespace)
  {
  }

  /** A relative can be handed to AppendConnections, and one that leads away from the start anchors the list. */
  lemma ReadyToAppend(env: Env, s: State, a: Node, level: int, c: Connection)
    requires EnvOk(env) && Ok(env, s) && Exploring(env, s, level, a) && IsRelative(env, a, level, c)
    ensures Founded(env, s.found, c) && c.node.name != "" && c.level == level && (c.level > 1 ==> Anchored(s.total))
    ensures level >= 1 && s.total != [] && (level == 1 && c.node != a ==> !IsHead(s.total, c.node))
  {
    hide EnvOk, Within, Ignored, Founded, Anchored, IsHead;
    RelativeStep(env, a, level, c, a.namespace);
    RelativeFounded(env, s, a, level, c);
    if c.node != a {
      LeavesHead(env, s, a, level, c);
    }
  }

  /** After that a call can be made for it. The frame began with `s0`, the connection was handed over between `s1` and `s2`. */
  lemma ReadyToCallUnmarked(env: Env, s0: State, s1: State, s2: State, a: Node, level: int, c: Connection, before: string, namespace: string)
    requires EnvOk(env) && Ok(env, s0) && Ok(env, s2) && Exploring(env, s0, level, a) && IsRelative(env, a, level, c)
    requires Advances(env, s0, s1) && Advances(env, s0, s2) && s2.visited == s1.visited && c in s2.found
    requires c.node !in Nodes(s0.visited) && (c.node.kind != NAMESPACE || Constant(env))
    requires FirstNamespace(env, s0, s1, a, before) && (before == a.namespace || s1.namespaceToSearch != "")
    requires s1.namespaceToSearch == s2.namespaceToSearch
    requires namespace == if s2.namespaceToSearch != "" then s2.namespaceToSearch else before
    ensures var k := FrameNode(c.node.kind, c.node.name, namespace);
            && Callable(env, s2, level + 1, k) && (Constant(env) ==> k == c.node)
            && (|| Fuel(env, s2.visited, k) < Room(env, s0.visited)
                || (Fuel(env, s2.visited, k) == Room(env, s0.visited)
                    && Flag(namespace, s2.namespaceToSearch) < Flag(a.namespace, s0.namespaceToSearch)))
    ensures FirstNamespace(env, s0, s2, a, namespace)
  {
    hide EnvOk, Ok, Within, Ignored, Steady, Room, Fuel, Flag, Callable, IsRelative, Stack, Grows, Anchored;
    InScopes(env, s2);
    CallNamespaceHolds(env, s0, s2, a, before, namespace);
    ExploringStays(env, s0, s2, level, a);
    RelativeCall(env, s2, a, level, c, namespace);
    ConstantCall(env, a, level, c, namespace);
    UnmarkedCallDrops(env, s0, s2, a, level, c, namespace);
  }

  /** The same for a relative that was marked before. */
  lemma ReadyToCallMarked(env: Env, s0: State, s1: State, s2: State, a: Node, level: int, c: Connection, before: string, namespace: string)
    requires EnvOk(env) && Ok(env, s2) && Exploring(env, s0, level, a) && IsRelative(env, a, level, c)
    requires Extends(s0, s1) && Extends(s0, s2) && s2.visited == s1.visited && c in s2.found
    requires Constant(env) ==> c.node !in s0.active
    requires before == a.namespace || s1.namespaceToSearch != ""
    requires s1.namespaceToSearch == s2.namespaceToSearch
    requires before in env.scopes && namespace == if s2.namespaceToSearch != "" then s2.namespaceToSearch else before
    ensures var k := FrameNode(c.node.kind, c.node.name, namespace);
            && namespace in env.scopes && Callable(env, s2, level + 1, k) && (Constant(env) ==> k == c.node)
            && Fuel(env, s2.visited, k) <= Room(env, s0.visited)
  {
    hide EnvOk, Ok, Within, Ignored, Grows, Anchored, Room, Fuel, Callable, IsRelative, Nodes;
    InScopes(env, s2);
    ExploringStays(env, s0, s2, level, a);
    RelativeCall(env, s2, a, level, c, namespace);
    ConstantCall(env, a, level, c, namespace);
    FuelAtMost(env, s0.visited, s2.visited, FrameNode(c.node.kind, c.node.name, namespace));
  }

  /** A call for `b` arrives at `b`, whatever namespace it was made in. */
  lemma FrameArrived(env: Env, s: State, b: Node, namespace: string)
    requires var k := FrameNode(b.kind, b.name, namespace);
             (Ignored(env.world, k) || k in Nodes(s.visited)) && (Constant(env) ==> k == b)
    ensures Arrived(env, s, b)
  {
  }

  lemma StillArrived(env: Env, s: State, t: State, conns: seq<Connection>, n: nat)
    requires n <= |conns| && Nodes(s.visited) <= Nodes(t.visited)
    requires forall j :: 0 <= j < n ==> Arrived(env, s, conns[j].node)
    ensures forall j :: 0 <= j < n ==> Arrived(env, t, conns[j].node)
  {
    hide Arrived, Nodes;
    forall j | 0 <= j < n
      ensures Arrived(env, t, conns[j].node)
    {
      ArrivedStays(env, s, t, conns[j].node);
    }
  }

  /** The unseen ones are arrived at by a call, the seen ones were visited before. */
  lemma AllArrived(env: Env, s: State, t: State, u: State, conns: seq<Connection>, unseen: seq<Connection>, seen: seq<Connection>)
    requires unseen == Select(s.visited, conns, true) && seen == Select(s.visited, conns, false)
    requires Extends(s, t) && Extends(t, u)
    requires forall c :: c in unseen ==> Arrived(env, t, c.node)
    ensures forall c :: c in conns ==> Arrived(env, u, c.node)
  {
    hide Ignored, Constant;
    forall c | c in conns
      ensures Arrived(env, u, c.node)
    {
      if c in unseen {
        ArrivedStays(env, t, u, c.node);
      } else {
        assert c.node in Nodes(u.visited) && c.node == Node(c.node.kind, c.node.name, c.node.namespace);
      }
    }
  }

  /** The namespace the search loops pass on. */
  lemma CallNamespaceHolds(env: Env, s: State, t: State, a: Node, before: string, namespace: string)
    requires Ok(env, t) && Advances(env, s, t) && a.namespace in env.scopes && before in env.scopes
    requires Nodes(t.visited) == Nodes(s.visited) && s.namespaceToSearch == "" && !Constant(env) ==> before == a.namespace
    requires namespace == if t.namespaceToSearch != "" then t.namespaceToSearch else before
    ensures CallNamespace(env, s, t, a, namespace)
    ensures Nodes(t.visited) == Nodes(s.visited) && s.namespaceToSearch == "" && !Constant(env) ==> namespace == a.namespace
  {
  }

  lemma SteadyInConstant(env: Env, s: State, t: State)
    ensures Constant(env) ==> Steady(env, s, t)
  {
  }

  lemma SelectRelatives(env: Env, a: Node, level: int, visited: seq<Connection>, conns: seq<Connection>)
    requires AreRelatives(env, a, level, conns)
    ensures AreRelatives(env, a, level, Select(visited, conns, true)) && AreRelatives(env, a, level, Select(visited, conns, false))
  {
    hide IsRelative;
    forall unseen, i | 0 <= i < |Select(visited, conns, unseen)|
      ensures IsRelative(env, a, level, Select(visited, conns, unseen)[i])
    {
      assert Select(visited, conns, unseen)[i] in conns;
    }
  }

  /** After marking, what is newly pending is what is about to be searched. */
  lemma UnseenPending(env: Env, visited: seq<Connection>, relatives: seq<Connection>, unseen: seq<Connection>, pending: set<Node>, s: State)
    requires unseen == Select(visited, relatives, true)
    requires Closed(env, s, pending + (Nodes(relatives) - Nodes(visited)))
    ensures Closed(env, s, pending + Nodes(unseen))
  {
    forall n | n in Nodes(relatives) - Nodes(visited)
      ensures n in Nodes(unseen)
    {
      var i :| 0 <= i < |relatives| && relatives[i].node == n;
      assert relatives[i] in unseen;
    }
    ClosedMore(env, s, pending + (Nodes(relatives) - Nodes(visited)), pending + Nodes(unseen));
  }

  /** Marking something unseen takes room. */
  lemma UnseenGrow(env: Env, s: State, t: State, relatives: seq<Connection>, unseen: seq<Connection>)
    requires unseen == Select(s.visited, relatives, true)
    requires Ok(env, t) && Nodes(t.visited) == Nodes(s.visited) + Nodes(relatives)
    ensures unseen != [] ==> Nodes(s.visited) < Nodes(t.visited) && Room(env, t.visited) < Room(env, s.visited)
  {
    hide Universe, Room, AllPlaced, AllLinked, OnlyFound, AllFounded, Rooted, Anchored, OnlyLoops, UniqueNodes;
    PlacedInUniverse(env, t.found, t.visited);
    RoomShrinks(env, s.visited, t.visited);
    if unseen != [] {
      assert unseen[0] in unseen;
      var i :| 0 <= i < |relatives| && relatives[i] == unseen[0];
      assert relatives[i].node in Nodes(relatives) && relatives[i].node !in Nodes(s.visited);
    }
  }

  lemma InScopes(env: Env, s: State)
    requires Ok(env, s)
    ensures s.namespaceToSearch == "" || s.namespaceToSearch in env.scopes
  {
  }

  lemma NoNodes()
    ensures Nodes([]) == {}
  {
  }

  /** What entering a call at the node of `entry` does to the state: NamespaceToSearch may switch to that node's namespace, and
      the node is visited. */
  function Entry(s: State, entry: Connection): State {
    var switched := if entry.node.kind == NAMESPACE then s.(namespaceToSearch := entry.node.name) else s;
    Mark(switched, [entry]).(entered := s.entered + {entry.node}, active := s.active + [entry.node])
  }

  lemma EntryIs(s: State, entry: Connection)
    ensures Entry(s, entry) == State(Merged(s.visited, [entry]), s.total,
                                     if entry.node.kind == NAMESPACE then entry.node.name else s.namespaceToSearch,
                                     s.found, s.entered + {entry.node}, s.active + [entry.node])
  {
  }

  /** The node was put behind everything that was visited before, with this type and this peer. */
  ghost predicate NewEntry(before: seq<Connection>, after: seq<Connection>, k: Node, ty: RelType, peer: Node) {
    |before| < |after| && after[|before|] == Connection(after[|before|].level, k, ty, Some(peer))
  }

  lemma EntryAdded(visited: seq<Connection>, entry: Connection)
    ensures var v := Merged(visited, [entry]);
            HasAtMost(v, entry.node, entry.level) && (entry.node !in Nodes(visited) ==> v == visited + [entry])
  {
    MergedAtMost(visited, [entry], entry);
    if entry.node !in Nodes(visited) {
      MergedNew(visited, entry);
    }
  }

  lemma EntryStays(visited: seq<Connection>, marked: State, u: State, entry: Connection)
    requires Extends(marked, u) && marked.visited == Merged(visited, [entry])
    ensures HasAtMost(u.visited, entry.node, entry.level)
    ensures entry.peer.Some? && entry.node !in Nodes(visited) ==> NewEntry(visited, u.visited, entry.node, entry.relationType, entry.peer.value)
  {
    hide Merged, Anchored;
    EntryAdded(visited, entry);
    HasAtMostStays(marked.visited, u.visited, entry.node, entry.level);
  }

  lemma MarkedAtMost(env: Env, visited: seq<Connection>, v: seq<Connection>, level: int, a: Node, relatives: seq<Connection>)
    requires AreRelatives(env, a, level, relatives) && Grows(Merged(visited, relatives), v)
    ensures forall c :: c in relatives ==> HasAtMost(v, c.node, level)
  {
    hide Grows, HasAtMost;
    forall c | c in relatives
      ensures HasAtMost(v, c.node, level)
    {
      MergedAtMost(visited, relatives, c);
      HasAtMostStays(Merged(visited, relatives), v, c.node, c.level);
    }
  }

  lemma CallableNamed(env: Env, s: State, level: int, k: Node)
    requires Callable(env, s, level, k)
    ensures Named(k.name) && k.namespace in env.scopes && k in Universe(env)
  {
  }

  lemma PushedExplores(env: Env, s: State, t: State, level: int, a: Node)
    requires Callable(env, s, level, a) && !Ignored(env.world, a) && (level > 1 ==> Anchored(t.total))
    requires t.active == s.active + [a] && t.found == s.found && Nodes(t.visited) == Nodes(s.visited) + {a}
    ensures Exploring(env, t, level, a) && Named(a.name)
  {
    hide Stack, Ignored, Universe, Within, Anchored;
  }

  lemma Entered(env: Env, s: State, entry: Connection, level: int, pending: set<Node>)
    requires Ok(env, s) && Closed(env, s, pending)
    requires Callable(env, s, level, entry.node) && entry.level == level && !Ignored(env.world, entry.node)
    requires level > 1 ==> Anchored(s.total)
    requires entry.node.kind == NAMESPACE ==> entry.node.namespace == entry.node.name
    ensures var t := Entry(s, entry);
            && Ok(env, t) && Closed(env, t, pending + {entry.node}) && Extends(s.(active := t.active), t)
            && Exploring(env, t, level, entry.node)
            && Room(env, t.visited) == Fuel(env, s.visited, entry.node)
            && (entry.node.kind != NAMESPACE ==> Advances(env, s.(active := t.active), t))
            && (entry.node.kind == NAMESPACE ==> Flag(entry.node.namespace, t.namespaceToSearch) == 0)
  {
    hide Ok, Closed, Ignored, Universe, Placed, Merged, Within, Anchored, AllPlaced, Callable, Exploring, Nodes;
    var a := entry.node;
    CallableNamed(env, s, level, a);
    var switched := if a.kind == NAMESPACE then s.(namespaceToSearch := a.name) else s;
    Switched(env, s, switched, pending);
    EntryPlaced(env, s, level, entry);
    Marked(env, switched, [entry], pending);
    NodesOfOne(entry);
    var marked := Mark(switched, [entry]);
    FuelVisited(env, s.visited, marked.visited, a);
    ClosedMore(env, marked, pending + ({a} - Nodes(switched.visited)), pending + {a});
    ExtendsTransitive(s, switched, marked);
    Activated(env, marked, a, pending + {a});
    PushedExplores(env, s, Entry(s, entry), level, a);
  }

  lemma Activated(env: Env, s: State, a: Node, pending: set<Node>)
    requires Ok(env, s) && Closed(env, s, pending)
    ensures var t := s.(entered := s.entered + {a}, active := s.active + [a]); Ok(env, t) && Closed(env, t, pending)
  {
    hide EnteredDone;
    var t := s.(entered := s.entered + {a}, active := s.active + [a]);
    ClosedStays(env, s, t, pending, pending);
    EnteredStays(env, s, t);
  }

  /** A call at `a` that began in the state `s`, and was entered in `t`, returns with the state `u`. */
  lemma CallReturns(env: Env, s: State, t: State, u: State, a: Node, pending: set<Node>)
    requires t.active == s.active + [a] && a in t.entered
    requires Extends(s.(active := t.active), t) && Advances(env, t, u)
    requires a.kind != NAMESPACE ==> Advances(env, s.(active := t.active), t)
    requires Ok(env, u) && Closed(env, u, pending + {a} - {a}) && Done(env, u, a)
    ensures var r := u.(active := s.active);
            && Extends(s, r) && (a.kind != NAMESPACE ==> Steady(env, s, r))
            && Ok(env, r) && Closed(env, r, pending - {a}) && a in r.entered
  {
    ExtendsTransitive(s.(active := t.active), t, u);
    if a.kind != NAMESPACE {
      AdvancesTransitive(env, s.(active := t.active), t, u);
    }
    assert pending + {a} - {a} == pending - {a};
    Deactivated(env, u, s.active, a, pending - {a});
  }

  lemma Deactivated(env: Env, u: State, active: seq<Node>, a: Node, pending: set<Node>)
    requires u.active == active + [a]
    requires Ok(env, u) && Closed(env, u, pending) && Done(env, u, a)
    ensures Ok(env, u.(active := active)) && Closed(env, u.(active := active), pending)
  {
    hide Done;
    var r := u.(active := active);
    ClosedStays(env, u, r, pending, pending);
    forall x | x in r.entered && x !in r.active
      ensures Done(env, r, x)
    {
      DoneStays(env, u, r, x);
    }
  }

  // ---------------------------------------------------------------- what a frame itself hands over

  /** Between the two states these connections were handed over in this order, with others in between. */
  ghost predicate HandsOver(s: State, t: State, own: seq<Connection>) {
    Longer(s.found, t.found) && Subsequence(own, t.found[|s.found|..])
  }

  lemma HandsOverNothing(s: State, t: State)
    requires Longer(s.found, t.found)
    ensures HandsOver(s, t, [])
  {
    NothingIsSubsequence(t.found[|s.found|..]);
  }

  lemma HandsOverStep(s: State, t: State, u: State, own: seq<Connection>, more: seq<Connection>)
    requires HandsOver(s, t, own) && HandsOver(t, u, more)
    ensures HandsOver(s, u, own + more)
  {
    hide Subsequence;
    SubsequenceConcat(own, t.found[|s.found|..], more, u.found[|t.found|..]);
    assert u.found[|s.found|..] == t.found[|s.found|..] + u.found[|t.found|..];
  }

  lemma HandsOverOne(s: State, t: State, u: State, c: Connection)
    requires t.found == s.found + [c] && Longer(t.found, u.found)
    ensures HandsOver(s, u, [c])
  {
    assert u.found[|s.found|..][0] == c;
    assert Picks([c], u.found[|s.found|..], [0]);
  }

  lemma HandsOverAll(s: State, t: State, conns: seq<Connection>)
    requires t.found == s.found + conns
    ensures HandsOver(s, t, conns)
  {
    var at: seq<nat> := seq(|conns|, i => i);
    assert t.found[|s.found|..] == conns;
    assert Picks(conns, conns, at);
  }

  lemma HandedIsFound(s: State, t: State, own: seq<Connection>)
    requires HandsOver(s, t, own)
    ensures forall c :: c in own ==> c in t.found
  {
    hide Subsequence;
    SubsequenceMembers(own, t.found[|s.found|..]);
  }

  /** The state as if nothing but these had been handed over. */
  function Own(s: State, own: seq<Connection>): State {
    s.(found := own)
  }

  lemma OwnExtends(s: State, t: State, own: seq<Connection>, more: seq<Connection>)
    requires Extends(s, t)
    ensures Extends(Own(s, own), Own(t, own + more))
  {
    hide Grows, Anchored;
    assert own <= own + more;
  }

  /** The connections were found in the direction of declarations, or against it. */
  ghost predicate Relate(env: Env, down: bool, level: int, a: Node, own: seq<Connection>) {
    forall c :: c in own ==> c.level == level && c.peer == Some(a) && Related(env, down, a, c.node, c.relationType)
  }

  lemma RelateNothing(env: Env, down: bool, level: int, a: Node)
    ensures Relate(env, down, level, a, [])
  {
  }

  lemma RelateConcat(env: Env, down: bool, level: int, a: Node, own: seq<Connection>, more: seq<Connection>)
    requires Relate(env, down, level, a, own) && Relate(env, down, level, a, more)
    ensures Relate(env, down, level, a, own + more)
  {
    hide Related;
  }

  lemma RelateParts(env: Env, down: bool, level: int, a: Node, visited: seq<Connection>, conns: seq<Connection>)
    requires Relate(env, down, level, a, conns)
    ensures Relate(env, down, level, a, Parts(visited, conns))
  {
    hide Related;
  }

  ghost predicate Related(env: Env, down: bool, a: Node, b: Node, ty: RelType) {
    exists targetNamespace :: targetNamespace in env.scopes
                              && if down then Down(env.world, a, b, ty, targetNamespace, false) else Up(env.world, a, b, ty, targetNamespace, false)
  }

  lemma RelNotedIn(env: Env, s: State, own: seq<Connection>, more: seq<Connection>, down: bool, a: Node, rel: Relationship, kind: string)
    requires RelNoted(env, Own(s, own), down, a, rel, kind) && forall c :: c in own ==> c in more
    ensures RelNoted(env, Own(s, more), down, a, rel, kind)
  {
    hide AlwaysLeads, Noted;
    forall name | AlwaysLeads(env, down, a, rel, Node(kind, name, a.namespace))
      ensures Noted(env, Own(s, more), Node(kind, name, a.namespace), TypeOf(rel), a)
    {
      NotedIn(env, s, own, more, Node(kind, name, a.namespace), TypeOf(rel), a);
    }
  }

  lemma NotedIn(env: Env, s: State, own: seq<Connection>, more: seq<Connection>, b: Node, ty: RelType, peer: Node)
    requires Noted(env, Own(s, own), b, ty, peer) && forall c :: c in own ==> c in more
    ensures Noted(env, Own(s, more), b, ty, peer)
  {
    hide Ignored, Constant, Nodes;
  }

  lemma KindsNotedIn(env: Env, s: State, own: seq<Connection>, more: seq<Connection>, down: bool, a: Node, rel: Relationship)
    requires forall kind :: kind in rel.targetKinds ==> RelNoted(env, Own(s, own), down, a, rel, kind)
    requires forall c :: c in own ==> c in more
    ensures forall kind :: kind in rel.targetKinds ==> RelNoted(env, Own(s, more), down, a, rel, kind)
  {
    hide RelNoted;
    forall kind | kind in rel.targetKinds
      ensures RelNoted(env, Own(s, more), down, a, rel, kind)
    {
      RelNotedIn(env, s, own, more, down, a, rel, kind);
    }
  }

  lemma DownNotedIn(env: Env, s: State, own: seq<Connection>, more: seq<Connection>, a: Node)
    requires DownNoted(env, Own(s, own), a) && forall c :: c in own ==> c in more
    ensures DownNoted(env, Own(s, more), a)
  {
    hide RelNoted;
    forall rel, kind | rel in RelsOf(env.world, a.kind) && kind in rel.targetKinds
      ensures RelNoted(env, Own(s, more), true, a, rel, kind)
    {
      RelNotedIn(env, s, own, more, true, a, rel, kind);
    }
  }

  lemma UpNotedIn(env: Env, s: State, own: seq<Connection>, more: seq<Connection>, a: Node, kind: string)
    requires UpNoted(env, Own(s, own), a, kind) && forall c :: c in own ==> c in more
    ensures UpNoted(env, Own(s, more), a, kind)
  {
    hide RelNoted;
    forall rel | rel in RelsOf(env.world, kind) && a.kind in rel.targetKinds
      ensures RelNoted(env, Own(s, more), false, a, rel, kind)
    {
      RelNotedIn(env, s, own, more, false, a, rel, kind);
    }
  }

  lemma OwnershipNotedIn(env: Env, s: State, own: seq<Connection>, more: seq<Connection>, a: Node)
    requires forall c :: c in own ==> c in more
    ensures OwnersNoted(env, Own(s, own), a) ==> OwnersNoted(env, Own(s, more), a)
    ensures ChildrenNoted(env, Own(s, own), a) ==> ChildrenNoted(env, Own(s, more), a)
    ensures ComponentsNoted(env, Own(s, own), a) ==> ComponentsNoted(env, Own(s, more), a)
  {
    hide Owner, Child, Component, Noted;
    forall b, ty, peer | Noted(env, Own(s, own), b, ty, peer)
      ensures Noted(env, Own(s, more), b, ty, peer)
    {
      NotedIn(env, s, own, more, b, ty, peer);
    }
  }

  /** The five groups of relatives, each in its turn. */
  datatype Groups = Groups(down: seq<Connection>, up: seq<Connection>, owners: seq<Connection>, children: seq<Connection>,
                           components: seq<Connection>)

  function InTurn(g: Groups): seq<Connection> {
    g.down + g.up + g.owners + g.children + g.components
  }

  ghost predicate OwnersOnly(env: Env, level: int, a: Node, own: seq<Connection>) {
    forall c :: c in own ==> Owner(env.world, a, c.node) && c == Connection(level, c.node, OwnerReference, Some(OwnerPeer(a, c.node)))
  }

  ghost predicate ChildrenOnly(env: Env, level: int, a: Node, own: seq<Connection>) {
    forall c :: c in own ==> Child(env.world, a, c.node) && c == Connection(level, c.node, OwnerReference, Some(a))
  }

  ghost predicate ComponentsOnly(env: Env, level: int, a: Node, own: seq<Connection>) {
    forall c :: c in own ==> Component(env.world, a, c.node) && c == Connection(level, c.node, OwnerReference, Some(a))
  }

  /** A frame hands over what is found along relationships, what is found against them, the owner, children and components of its
      node, in this order, and nothing else in between itself. */
  ghost predicate HandsOverGroups(env: Env, s: State, t: State, level: int, a: Node, g: Groups) {
    && HandsOver(s, t, InTurn(g))
    && Relate(env, true, level, a, g.down) && DownNoted(env, Own(t, g.down), a)
    && Relate(env, false, level, a, g.up) && (forall kind :: UpNoted(env, Own(t, g.up), a, kind))
    && OwnersOnly(env, level, a, g.owners) && OwnersNoted(env, Own(t, g.owners), a)
    && ChildrenOnly(env, level, a, g.children) && ChildrenNoted(env, Own(t, g.children), a)
    && ComponentsOnly(env, level, a, g.components) && ComponentsNoted(env, Own(t, g.components), a)
  }

  // ---------------------------------------------------------------- the edges of one node, group by group

  /** What `rel` leads to in `kind` in any case has been followed. */
  ghost predicate RelNoted(env: Env, s: State, down: bool, a: Node, rel: Relationship, kind: string) {
    forall name :: AlwaysLeads(env, down, a, rel, Node(kind, name, a.namespace)) ==>
                     Noted(env, s, Node(kind, name, a.namespace), TypeOf(rel), a)
  }

  lemma RelNotedStays(env: Env, s: State, t: State, down: bool, a: Node, rel: Relationship, kind: string)
    requires RelNoted(env, s, down, a, rel, kind) && Extends(s, t)
    ensures RelNoted(env, t, down, a, rel, kind)
  {
    hide AlwaysLeads, Noted, Grows;
    forall name | AlwaysLeads(env, down, a, rel, Node(kind, name, a.namespace))
      ensures Noted(env, t, Node(kind, name, a.namespace), TypeOf(rel), a)
    {
      NotedStays(env, s, t, Node(kind, name, a.namespace), TypeOf(rel), a);
    }
  }

  /** What a search found are relatives. */
  lemma FoundRelatives(env: Env, down: bool, level: int, a: Node, rel: Relationship, kind: string, targetNamespace: string, conns: seq<Connection>)
    requires targetNamespace in env.scopes
    requires Finds(env.world, down, level, a, rel, kind, targetNamespace, conns)
    requires if down then rel in RelsOf(env.world, a.kind) && kind in rel.targetKinds else rel in RelsOf(env.world, kind) && a.kind in rel.targetKinds
    ensures AreRelatives(env, a, level, conns)
    ensures forall c :: c in conns ==> c.node.kind == kind
    ensures Relate(env, down, level, a, conns)
  {
    hide LeadsDown, LeadsUp;
    forall i | 0 <= i < |conns|
      ensures IsRelative(env, a, level, conns[i])
    {
      var c := conns[i];
      assert c.node.name in FoundNames(conns);
      assert Leads(env.world, down, a, rel, c.node, targetNamespace, false);
      assert Yields(env.world, a, c.node, c.relationType, a, targetNamespace, false);
    }
  }

  /** Once they are built into the graph, `rel` has been followed. */
  lemma FoundNoted(env: Env, s: State, down: bool, level: int, a: Node, rel: Relationship, kind: string, targetNamespace: string, conns: seq<Connection>)
    requires Finds(env.world, down, level, a, rel, kind, targetNamespace, conns)
    requires forall c :: c in conns ==> c in s.found && c.node in Nodes(s.visited)
    requires targetNamespace in env.scopes
    ensures RelNoted(env, s, down, a, rel, kind)
  {
    hide Leads;
    forall name | AlwaysLeads(env, down, a, rel, Node(kind, name, a.namespace))
      ensures Noted(env, s, Node(kind, name, a.namespace), TypeOf(rel), a)
    {
      var i :| 0 <= i < |conns| && conns[i].node.name == name;
      assert conns[i] in conns;
    }
  }

  /** Every relationship declared for the kind of `a` has been followed. */
  ghost predicate DownNoted(env: Env, s: State, a: Node) {
    forall rel, kind :: rel in RelsOf(env.world, a.kind) && kind in rel.targetKinds ==> RelNoted(env, s, true, a, rel, kind)
  }

  /** Every relationship declared for `kind` with the kind of `a` as a target has been followed back. */
  ghost predicate UpNoted(env: Env, s: State, a: Node, kind: string) {
    forall rel :: rel in RelsOf(env.world, kind) && a.kind in rel.targetKinds ==> RelNoted(env, s, false, a, rel, kind)
  }

  lemma DownNotedStays(env: Env, s: State, t: State, a: Node)
    requires DownNoted(env, s, a) && Extends(s, t)
    ensures DownNoted(env, t, a)
  {
    hide RelNoted, Extends;
    forall rel, kind | rel in RelsOf(env.world, a.kind) && kind in rel.targetKinds
      ensures RelNoted(env, t, true, a, rel, kind)
    {
      RelNotedStays(env, s, t, true, a, rel, kind);
    }
  }

  lemma UpNotedStays(env: Env, s: State, t: State, a: Node, kind: string)
    requires UpNoted(env, s, a, kind) && Extends(s, t)
    ensures UpNoted(env, t, a, kind)
  {
    hide RelNoted, Extends;
    forall rel | rel in RelsOf(env.world, kind) && a.kind in rel.targetKinds
      ensures RelNoted(env, t, false, a, rel, kind)
    {
      RelNotedStays(env, s, t, false, a, rel, kind);
    }
  }

  /** Owners, children and components of `a` have been followed. */
  ghost predicate OwnersNoted(env: Env, s: State, a: Node) {
    forall b: Node :: b.namespace == a.namespace && Owner(env.world, a, b) ==> Noted(env, s, b, OwnerReference, OwnerPeer(a, b))
  }

  ghost predicate ChildrenNoted(env: Env, s: State, a: Node) {
    forall b: Node :: b.namespace == a.namespace && Child(env.world, a, b) ==> Noted(env, s, b, OwnerReference, a)
  }

  ghost predicate ComponentsNoted(env: Env, s: State, a: Node) {
    forall b: Node :: b.namespace == a.namespace && Component(env.world, a, b) ==> Noted(env, s, b, OwnerReference, a)
  }

  lemma OwnersNotedStays(env: Env, s: State, t: State, a: Node)
    requires Extends(s, t)
    ensures OwnersNoted(env, s, a) ==> OwnersNoted(env, t, a)
    ensures ChildrenNoted(env, s, a) ==> ChildrenNoted(env, t, a)
  {
    hide Owner, Child, Noted, Grows;
    forall b, ty, peer | Noted(env, s, b, ty, peer)
      ensures Noted(env, t, b, ty, peer)
    {
      NotedStays(env, s, t, b, ty, peer);
    }
  }

  /** All groups together are all that `a` yields. */
  lemma AllNoted(env: Env, s: State, a: Node)
    requires DownNoted(env, s, a) && (forall kind :: UpNoted(env, s, a, kind))
    requires OwnersNoted(env, s, a) && ChildrenNoted(env, s, a) && ComponentsNoted(env, s, a)
    ensures Done(env, s, a)
  {
    hide AlwaysLeads, Owner, Child, Component, Noted;
    forall b, ty, peer | AlwaysYields(env, a, b, ty, peer)
      ensures Noted(env, s, b, ty, peer)
    {
      assert b == Node(b.kind, b.name, a.namespace);
      if peer == a && AlwaysDown(env, a, b, ty) {
        var rel :| rel in RelsOf(env.world, a.kind) && b.kind in rel.targetKinds && ty == TypeOf(rel) && AlwaysLeads(env, true, a, rel, b);
        assert RelNoted(env, s, true, a, rel, b.kind);
      } else if peer == a && AlwaysUp(env, a, b, ty) {
        var rel :| rel in RelsOf(env.world, b.kind) && a.kind in rel.targetKinds && ty == TypeOf(rel) && AlwaysLeads(env, false, a, rel, b);
        assert UpNoted(env, s, a, b.kind);
        assert RelNoted(env, s, false, a, rel, b.kind);
      }
    }
  }

  /** The namespace of annotation targets is a scope, and the only one when there is only one. */
  lemma TargetNamespaceInScopes(env: Env, s: State, a: Node)
    requires Ok(env, s) && a.namespace in env.scopes
    ensures var targetNamespace := TargetNamespace(s.namespaceToSearch, a.namespace);
            targetNamespace in env.scopes && (Constant(env) ==> targetNamespace == env.start.namespace)
  {
  }

  lemma EnvWorld(env: Env)
    requires EnvOk(env)
    ensures WorldOk(env.world)
  {
  }

  /** A frame goes on after one of its steps, from `s` to `t`; `start` is the state in which it began. */
  lemma Continue(env: Env, start: State, s: State, t: State, level: int, a: Node)
    requires Ok(env, start) && Ok(env, t) && Exploring(env, start, level, a)
    requires Advances(env, start, s) || s == start
    requires Advances(env, s, t)
    ensures Advances(env, start, t) && Exploring(env, t, level, a)
    ensures || Room(env, t.visited) < Room(env, start.visited)
            || (Room(env, t.visited) == Room(env, start.visited)
                && Flag(a.namespace, t.namespaceToSearch) <= Flag(a.namespace, start.namespaceToSearch))
  {
    hide Ok, Within, Ignored, Room;
    if s != start {
      AdvancesTransitive(env, start, s, t);
    }
    ExploringStays(env, start, t, level, a);
    MeasureStays(env, start, t, a);
  }

  /** After all five groups. */
  lemma InTheirTurn(env: Env, s0: State, s1: State, s2: State, s3: State, s4: State, s5: State, level: int, a: Node, g: Groups)
    requires Extends(s0, s1) && Extends(s1, s2) && Extends(s2, s3) && Extends(s3, s4) && Extends(s4, s5)
    requires HandsOver(s0, s1, g.down) && HandsOver(s1, s2, g.up) && HandsOver(s2, s3, g.owners) && HandsOver(s3, s4, g.children)
    requires HandsOver(s4, s5, g.components)
    requires Relate(env, true, level, a, g.down) && DownNoted(env, Own(s1, g.down), a)
    requires Relate(env, false, level, a, g.up) && (forall kind :: UpNoted(env, Own(s2, g.up), a, kind))
    requires OwnersOnly(env, level, a, g.owners) && OwnersNoted(env, Own(s3, g.owners), a)
    requires ChildrenOnly(env, level, a, g.children) && ChildrenNoted(env, Own(s4, g.children), a)
    requires ComponentsOnly(env, level, a, g.components) && ComponentsNoted(env, Own(s5, g.components), a)
    ensures HandsOverGroups(env, s0, s5, level, a, g)
  {
    hide Extends, HandsOver, Relate, DownNoted, UpNoted, OwnersOnly, OwnersNoted, ChildrenOnly, ChildrenNoted, ComponentsOnly, ComponentsNoted;
    HandsOverStep(s0, s1, s2, g.down, g.up);
    HandsOverStep(s0, s2, s3, g.down + g.up, g.owners);
    HandsOverStep(s0, s3, s4, g.down + g.up + g.owners, g.children);
    HandsOverStep(s0, s4, s5, g.down + g.up + g.owners + g.children, g.components);
    ExtendsTransitive(s3, s4, s5);
    ExtendsTransitive(s2, s3, s5);
    ExtendsTransitive(s1, s2, s5);
    OwnStays(s1, s5, g.down);
    OwnStays(s2, s5, g.up);
    OwnStays(s3, s5, g.owners);
    OwnStays(s4, s5, g.children);
    DownNotedStays(env, Own(s1, g.down), Own(s5, g.down), a);
    forall kind
      ensures UpNoted(env, Own(s5, g.up), a, kind)
    {
      UpNotedStays(env, Own(s2, g.up), Own(s5, g.up), a, kind);
    }
    OwnersNotedStays(env, Own(s3, g.owners), Own(s5, g.owners), a);
    OwnersNotedStays(env, Own(s4, g.children), Own(s5, g.children), a);
  }

  lemma OwnStays(s: State, t: State, own: seq<Connection>)
    requires Extends(s, t)
    ensures Extends(Own(s, own), Own(t, own))
  {
    OwnExtends(s, t, own, []);
    assert own + [] == own;
  }

  /** Then the node is explored. */
  lemma GroupsAreDone(env: Env, s: State, t: State, level: int, a: Node, g: Groups)
    requires HandsOverGroups(env, s, t, level, a, g)
    ensures Done(env, t, a)
  {
    hide HandsOver, Relate, DownNoted, UpNoted, OwnersOnly, OwnersNoted, ChildrenOnly, ChildrenNoted, ComponentsOnly, ComponentsNoted;
    HandedIsFound(s, t, InTurn(g));
    assert Own(t, t.found) == t;
    DownNotedIn(env, t, g.down, t.found, a);
    forall kind
      ensures UpNoted(env, t, a, kind)
    {
      UpNotedIn(env, t, g.up, t.found, a, kind);
    }
    OwnershipNotedIn(env, t, g.owners, t.found, a);
    OwnershipNotedIn(env, t, g.children, t.found, a);
    OwnershipNotedIn(env, t, g.components, t.found, a);
    AllNoted(env, t, a);
  }

  // ---------------------------------------------------------------- loops over relationships

  ghost predicate KindsUpTo(env: Env, s: State, a: Node, rel: Relationship, n: nat) {
    n <= |rel.targetKinds| && forall j :: 0 <= j < n ==> RelNoted(env, s, true, a, rel, rel.targetKinds[j])
  }

  lemma KindsUpToStays(env: Env, s: State, t: State, a: Node, rel: Relationship, n: nat)
    requires KindsUpTo(env, s, a, rel, n) && Extends(s, t)
    ensures KindsUpTo(env, t, a, rel, n)
  {
    hide RelNoted, Extends;
    forall j | 0 <= j < n
      ensures RelNoted(env, t, true, a, rel, rel.targetKinds[j])
    {
      RelNotedStays(env, s, t, true, a, rel, rel.targetKinds[j]);
    }
  }

  ghost predicate DownUpTo(env: Env, s: State, a: Node, rels: seq<Relationship>, n: nat) {
    n <= |rels| && forall i, kind :: 0 <= i < n && kind in rels[i].targetKinds ==> RelNoted(env, s, true, a, rels[i], kind)
  }

  lemma DownUpToStays(env: Env, s: State, t: State, a: Node, rels: seq<Relationship>, n: nat)
    requires DownUpTo(env, s, a, rels, n) && Extends(s, t)
    ensures DownUpTo(env, t, a, rels, n)
  {
    hide RelNoted, Extends;
    forall i, kind | 0 <= i < n && kind in rels[i].targetKinds
      ensures RelNoted(env, t, true, a, rels[i], kind)
    {
      RelNotedStays(env, s, t, true, a, rels[i], kind);
    }
  }

  ghost predicate UpUpTo(env: Env, s: State, a: Node, kind: string, rels: seq<Relationship>, n: nat) {
    n <= |rels| && forall i :: 0 <= i < n && a.kind in rels[i].targetKinds ==> RelNoted(env, s, false, a, rels[i], kind)
  }

  lemma UpUpToStays(env: Env, s: State, t: State, a: Node, kind: string, rels: seq<Relationship>, n: nat)
    requires UpUpTo(env, s, a, kind, rels, n) && Extends(s, t)
    ensures UpUpTo(env, t, a, kind, rels, n)
  {
    hide RelNoted, Extends;
    forall i | 0 <= i < n && a.kind in rels[i].targetKinds
      ensures RelNoted(env, t, false, a, rels[i], kind)
    {
      RelNotedStays(env, s, t, false, a, rels[i], kind);
    }
  }

  // ---------------------------------------------------------------- owners, children and components

  /** `c` was found by owner references. */
  lemma OwnershipEdge(env: Env, level: int, a: Node, c: Connection)
    requires EnvOk(env) && a.namespace in env.scopes
    requires c.level == level && c.relationType == OwnerReference && c.node.namespace == a.namespace
    requires c.peer.Some? && OwnershipYields(env.world, a, c.node, c.peer.value)
    ensures IsRelative(env, a, level, c)
    ensures c.node.kind != NAMESPACE || Constant(env)
  {
    assert Yields(env.world, a, c.node, OwnerReference, c.peer.value, a.namespace, false);
    if !Constant(env) {
      if Owner(env.world, a, c.node) {
        var o := Got(env.world, a.kind, a.name, a.namespace);
        assert o.value in env.world.cluster.objects;
      }
    }
  }

  lemma OwnerRelative(env: Env, level: int, a: Node, c: Connection)
    requires EnvOk(env) && a.namespace in env.scopes
    requires Owner(env.world, a, c.node)
    requires c == Connection(level, Node(c.node.kind, c.node.name, a.namespace), OwnerReference, Some(OwnerPeer(a, c.node)))
    ensures AreRelatives(env, a, level, [c]) && (c.node.kind != NAMESPACE || Constant(env))
    ensures OwnersOnly(env, level, a, [c])
  {
    hide EnvOk, Owner;
    OwnershipEdge(env, level, a, c);
  }

  lemma OwnerNoted(env: Env, s: State, a: Node, c: Connection)
    requires Owner(env.world, a, c.node) && c.node.namespace == a.namespace
    requires c.relationType == OwnerReference && c.peer == Some(OwnerPeer(a, c.node)) && c in s.found
    requires Arrived(env, s, c.node)
    ensures OwnersNoted(env, s, a)
  {
    hide Arrived;
    forall b: Node | b.namespace == a.namespace && Owner(env.world, a, b)
      ensures b == c.node
    {
    }
  }

  /** The connections to those of `children` that `a` owns. */
  function ChildConnections(level: int, a: Node, kind: string, children: seq<Cluster.Object>): seq<Connection> {
    if children == [] then []
    else
      var rest := ChildConnections(level, a, kind, children[..|children| - 1]);
      var child := children[|children| - 1];
      if OwnerOf(child) == Cluster.OwnerRef(a.kind, a.name) then
        rest + [Connection(level, Node(kind, child.name, a.namespace), OwnerReference, Some(a))]
      else rest
  }

  ghost predicate IsChildConnection(level: int, a: Node, c: Connection) {
    c == Connection(level, Node(c.node.kind, c.node.name, a.namespace), OwnerReference, Some(a))
  }

  /** Children of the first `n` kinds. */
  ghost predicate ChildrenUpTo(env: Env, level: int, a: Node, kinds: seq<string>, n: nat, childs: seq<Connection>) {
    && n <= |kinds|
    && (forall c :: c in childs ==> IsChildConnection(level, a, c) && c.node.kind in kinds && ChildOfKind(env, a, c.node.kind, c.node.name))
    && (forall i, name :: 0 <= i < n && ChildOfKind(env, a, kinds[i], name) ==>
          Connection(level, Node(kinds[i], name, a.namespace), OwnerReference, Some(a)) in childs)
  }

  ghost predicate ChildOfKind(env: Env, a: Node, kind: string, name: string) {
    exists o :: o in Objects(env.world, kind, a.namespace) && o.name == name && OwnerOf(o) == Cluster.OwnerRef(a.kind, a.name)
  }

  lemma {:induction false} ChildConnectionsExact(level: int, a: Node, kind: string, children: seq<Cluster.Object>, c: Connection)
    ensures c in ChildConnections(level, a, kind, children) <==>
            && IsChildConnection(level, a, c) && c.node.kind == kind
            && exists o :: o in children && o.name == c.node.name && OwnerOf(o) == Cluster.OwnerRef(a.kind, a.name)
  {
    if children != [] {
      var init, child := children[..|children| - 1], children[|children| - 1];
      ChildConnectionsExact(level, a, kind, init, c);
      assert children == init + [child];
    }
  }

  lemma ChildrenStep(env: Env, level: int, a: Node, kinds: seq<string>, n: nat, childs: seq<Connection>, children: seq<Cluster.Object>)
    requires ChildrenUpTo(env, level, a, kinds, n, childs) && n < |kinds|
    requires children == Objects(env.world, kinds[n], a.namespace)
    ensures ChildrenUpTo(env, level, a, kinds, n + 1, childs + ChildConnections(level, a, kinds[n], children))
  {
    hide Objects;
    var more := ChildConnections(level, a, kinds[n], children);
    forall c
      ensures c in more <==> IsChildConnection(level, a, c) && c.node.kind == kinds[n] && ChildOfKind(env, a, kinds[n], c.node.name)
    {
      ChildConnectionsExact(level, a, kinds[n], children, c);
    }
    forall i, name | 0 <= i < n + 1 && ChildOfKind(env, a, kinds[i], name)
      ensures Connection(level, Node(kinds[i], name, a.namespace), OwnerReference, Some(a)) in childs + more
    {
      var c := Connection(level, Node(kinds[i], name, a.namespace), OwnerReference, Some(a));
      if i == n {
        assert IsChildConnection(level, a, c);
      }
    }
  }

  lemma ChildRelatives(env: Env, s: State, level: int, a: Node, kinds: seq<string>, childs: seq<Connection>)
    requires EnvOk(env) && Exploring(env, s, level, a)
    requires forall kind :: kind in kinds <==> kind in ChildKinds(env.world)
    requires ChildrenUpTo(env, level, a, kinds, |kinds|, childs)
    ensures AreRelatives(env, a, level, childs) && ChildrenOnly(env, level, a, childs)
    ensures forall c :: c in childs ==> c.node.kind != NAMESPACE || Constant(env)
  {
    hide EnvOk, ChildKinds, Within, Ignored, IsRelative, Constant, Objects;
    forall i | 0 <= i < |childs|
      ensures IsRelative(env, a, level, childs[i]) && (childs[i].node.kind != NAMESPACE || Constant(env))
    {
      var c := childs[i];
      assert c in childs;
      OwnershipEdge(env, level, a, c);
    }
  }

  lemma ChildrenAllNoted(env: Env, s: State, level: int, a: Node, kinds: seq<string>, childs: seq<Connection>)
    requires forall kind :: kind in kinds <==> kind in ChildKinds(env.world)
    requires ChildrenUpTo(env, level, a, kinds, |kinds|, childs)
    requires forall c :: c in childs ==> c in s.found && Arrived(env, s, c.node)
    ensures ChildrenNoted(env, s, a)
  {
    hide ChildKinds, Arrived, Objects;
    forall b: Node | b.namespace == a.namespace && Child(env.world, a, b)
      ensures Noted(env, s, b, OwnerReference, a)
    {
      var i :| 0 <= i < |kinds| && kinds[i] == b.kind;
      assert ChildOfKind(env, a, kinds[i], b.name);
      var c := Connection(level, Node(kinds[i], b.name, a.namespace), OwnerReference, Some(a));
      assert c in childs && c.node == b;
    }
  }

  function ConnectionsOf(level: int, a: Node, children: seq<Composition>): (r: seq<Connection>)
    ensures |r| == |children|
    ensures forall i :: 0 <= i < |r| ==>
              r[i] == Connection(level, Node(children[i].kind, children[i].name, children[i].namespace), OwnerReference, Some(a))
  {
    if children == [] then []
    else
      var child := children[|children| - 1];
      ConnectionsOf(level, a, children[..|children| - 1])
      + [Connection(level, Node(child.kind, child.name, child.namespace), OwnerReference, Some(a))]
  }

  function ComponentConnections(level: int, a: Node, compositions: seq<Composition>): seq<Connection> {
    if compositions == [] then []
    else
      var rest := ComponentConnections(level, a, compositions[..|compositions| - 1]);
      var last := compositions[|compositions| - 1];
      if last.level == 1 then rest + ConnectionsOf(level, a, last.children) else rest
  }

  /** A connection to a component of `a`, as one of the stored compositions shows it. */
  ghost predicate IsComponentConnection(list: seq<CompositionStore.Compositions>, level: int, a: Node, c: Connection) {
    c.level == level && c.relationType == OwnerReference && c.peer == Some(a)
    && exists item, child :: item in list && item.key == a && child in ShownChildren(item) && Node(child.kind, child.name, child.namespace) == c.node
  }

  lemma {:induction false} ComponentConnectionsExact(list: seq<CompositionStore.Compositions>, level: int, a: Node, c: Connection)
    requires a.name != ANY
    ensures c in ComponentConnections(level, a, CompositionStore.ShownCompositions(list, a)) <==> IsComponentConnection(list, level, a, c)
  {
    if list != [] {
      var init, item := list[..|list| - 1], list[|list| - 1];
      assert list == init + [item];
      ComponentConnectionsExact(init, level, a, c);
      if item.key == a {
        var rest, shown := CompositionStore.ShownCompositions(init, a), CompositionStore.ShownComposition(item);
        assert (rest + [shown])[..|rest|] == rest;
        ComponentStep(init, item, level, a, c);
      }
    }
  }

  lemma ComponentStep(init: seq<CompositionStore.Compositions>, item: CompositionStore.Compositions, level: int, a: Node, c: Connection)
    requires item.key == a
    ensures IsComponentConnection(init + [item], level, a, c) <==>
            IsComponentConnection(init, level, a, c) || c in ConnectionsOf(level, a, ShownChildren(item))
  {
    var list := init + [item];
    var children := ShownChildren(item);
    if c in ConnectionsOf(level, a, children) {
      var i :| 0 <= i < |children| && c == ConnectionsOf(level, a, children)[i];
      assert item in list && children[i] in children;
    }
    if IsComponentConnection(list, level, a, c) && !IsComponentConnection(init, level, a, c) {
      var child :| child in children && Node(child.kind, child.name, child.namespace) == c.node;
      var i :| 0 <= i < |children| && children[i] == child;
      assert c == ConnectionsOf(level, a, children)[i];
    }
  }

  lemma ComponentRelatives(env: Env, s: State, level: int, a: Node, conns: seq<Connection>)
    requires EnvOk(env) && Exploring(env, s, level, a) && a.kind in env.world.crdKinds
    requires conns == ComponentConnections(level, a, CompositionStore.ShownCompositions(env.world.compositions, a))
    ensures AreRelatives(env, a, level, conns) && ComponentsOnly(env, level, a, conns)
    ensures forall c :: c in conns ==> c.node.kind != NAMESPACE || Constant(env)
  {
    hide ComponentConnections, ShownChildren, IsRelative, Constant, Stack, Within;
    forall c | c in conns
      ensures Component(env.world, a, c.node) && c == Connection(level, c.node, OwnerReference, Some(a))
      ensures IsRelative(env, a, level, c) && (c.node.kind != NAMESPACE || Constant(env))
    {
      ComponentConnectionsExact(env.world.compositions, level, a, c);
      assert Component(env.world, a, c.node);
      ComponentNamespaces(env, a, c.node);
      OwnershipEdge(env, level, a, c);
    }
  }

  lemma ComponentNamespaces(env: Env, a: Node, b: Node)
    requires EnvOk(env) && Component(env.world, a, b)
    ensures b.namespace == a.namespace
  {
  }

  lemma ComponentsAllNoted(env: Env, s: State, level: int, a: Node, conns: seq<Connection>)
    requires a.name != ANY
    requires conns == ComponentConnections(level, a, CompositionStore.ShownCompositions(env.world.compositions, a))
    requires forall c :: c in conns ==> c in s.found && Arrived(env, s, c.node)
    ensures ComponentsNoted(env, s, a)
  {
    hide Arrived, ShownChildren;
    forall b: Node | b.namespace == a.namespace && Component(env.world, a, b)
      ensures Noted(env, s, b, OwnerReference, a)
    {
      var c := Connection(level, b, OwnerReference, Some(a));
      ComponentConnectionsExact(env.world.compositions, level, a, c);
    }
  }
}
