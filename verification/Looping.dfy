/** A run that does not end: two Namespaces that name each other as owners. */
module Looping {
  import opened Connections
  import opened Cluster
  import opened FieldSearch
  import opened Graph
  import opened Progress
  import opened Relationships
  import LevelList
  import Ownership
  import Text

  /** A Namespace, as it is found from within another. */
  function Found(name: string, within: string): Node {
    Node(NAMESPACE, name, within)
  }

  /** Nothing but `b`, as an owner or a child, is found from `a`. */
  ghost predicate OnlyFinds(w: World, a: Node, b: Node) {
    forall x, ty, targetNamespace :: Edge(w, a, x, ty, targetNamespace, false) ==> x == b && ty == OwnerReference
  }

  ghost predicate OwnEachOther(w: World, first: string, second: string) {
    && first != second
    && Owner(w, Found(first, first), Found(second, first)) && OnlyFinds(w, Found(first, first), Found(second, first))
    && Owner(w, Found(second, second), Found(first, second)) && OnlyFinds(w, Found(second, second), Found(first, second))
  }

  /** A frame stands at the first of them after both were visited. */
  ghost predicate Loops(w: World, s: State, first: string, second: string) {
    && OwnEachOther(w, first, second)
    && UniqueNodes(s.visited) && s.namespaceToSearch == first
    && Nodes(s.visited) == {Found(first, first), Found(second, second)}
  }

  /** The entry of the call for the Namespace `name` at `level`. */
  function Call(level: int, name: string): Connection {
    Connection(level, FrameNode(NAMESPACE, name, name), OwnerReference, Some(NOBODY))
  }

  /** The frame of `first` finds the owner and nothing else, and searches it, since it is not among the visited nodes. */
  ghost predicate GoesOn(w: World, s: State, level: int, first: string, second: string) {
    var owner := Connection(level, Found(second, first), OwnerReference, Some(NOBODY));
    && Owner(w, Found(first, first), Found(second, first)) && OnlyFinds(w, Found(first, first), Found(second, first))
    && LevelList.Select(s.visited, [owner], true) == [owner]
  }

  lemma Unseen(w: World, s: State, level: int, first: string, second: string)
    requires OwnEachOther(w, first, second) && Found(second, first) !in Nodes(s.visited)
    ensures GoesOn(w, s, level, first, second)
  {
    hide Owner, OnlyFinds;
    var owner := Connection(level, Found(second, first), OwnerReference, Some(NOBODY));
    assert [owner][..0] == [];
    assert LevelList.Position(s.visited, owner.node) == |s.visited|;
    assert LevelList.Select(s.visited, [], true) == [];
    assert LevelList.Select(s.visited, [owner], true) == [owner];
  }

  lemma EntryNodes(s: State, level: int, name: string)
    requires UniqueNodes(s.visited)
    ensures var t := Entry(s, Call(level, name));
            && UniqueNodes(t.visited) && Nodes(t.visited) == Nodes(s.visited) + {Found(name, name)}
            && t.namespaceToSearch == name
  {
    NodesOfOne(Call(level, name));
    LevelList.MergedKeeps(s.visited, [Call(level, name)]);
  }

  /** The call for the owner comes to the same situation with the two exchanged. */
  lemma LoopGoesOn(w: World, s: State, level: int, first: string, second: string)
    requires Loops(w, s, first, second)
    ensures GoesOn(w, s, level, first, second)
    ensures Loops(w, Entry(s, Call(level + 1, second)), second, first)
  {
    hide Owner, OnlyFinds, Entry, GoesOn;
    Unseen(w, s, level, first, second);
    EntryNodes(s, level + 1, second);
  }

  /** The state after `n` more calls, each from the frame of the one before. */
  function Nested(s: State, level: int, first: string, second: string, n: nat): State
    decreases n
  {
    if n == 0 then s else Nested(Entry(s, Call(level + 1, second)), level + 1, second, first, n - 1)
  }

  /** So calls are nested to any depth, and none returns: each has another to make before it does. */
  lemma {:induction false} CallsNestForever(w: World, s: State, level: int, first: string, second: string, n: nat)
    requires Loops(w, s, first, second)
    ensures var here, there := if n % 2 == 0 then first else second, if n % 2 == 0 then second else first;
            Loops(w, Nested(s, level, first, second, n), here, there) && GoesOn(w, Nested(s, level, first, second, n), level + n, here, there)
    decreases n
  {
    hide Loops, GoesOn, Entry;
    LoopGoesOn(w, s, level, first, second);
    if n > 0 {
      CallsNestForever(w, Entry(s, Call(level + 1, second)), level + 1, second, first, n - 1);
    }
  }

  /** Asked about one of the Namespaces, a run is there after three calls. */
  lemma LoopIsReached(w: World, s0: State, first: string, second: string)
    requires OwnEachOther(w, first, second) && s0.visited == []
    ensures var s1 := Entry(s0, Call(1, first));
            var s2 := Entry(s1, Call(2, second));
            var s3 := Entry(s2, Call(3, first));
            GoesOn(w, s1, 1, first, second) && GoesOn(w, s2, 2, second, first) && Loops(w, s3, first, second)
  {
    hide Owner, OnlyFinds, Entry, GoesOn;
    NoNodes();
    EntryNodes(s0, 1, first);
    var s1 := Entry(s0, Call(1, first));
    Unseen(w, s1, 1, first, second);
    EntryNodes(s1, 2, second);
    Unseen(w, Entry(s1, Call(2, second)), 2, second, first);
    EntryNodes(Entry(s1, Call(2, second)), 3, first);
  }

  // ---------------------------------------------------------------- a world where this is so

  function Owned(name: string, owner: string): Object {
    Object(NAMESPACE, name, "", map[], map[], [OwnerRef(NAMESPACE, owner)], JOther)
  }

  /** Two Namespaces, and the relationship between Services and Pods. */
  function TheWorld(): World {
    var namespaces, services, pods := Gvk("", "v1", "namespaces"), Gvk("", "v1", "services"), Gvk("", "v1", "pods");
    World(Cluster([Owned("a", "b"), Owned("b", "a")],
                  map[namespaces := Resource(NAMESPACE, false), services := Resource("Service", true), pods := Resource("Pod", true)]),
          map[NAMESPACE := namespaces, "Service" := services, "Pod" := pods],
          map["Service" := [Relationship(Label, "INSTANCE.spec.selector", "", ["Pod"])]],
          {}, [], "", Found("a", "a"))
  }

  lemma TheWorldIsOk()
    ensures WorldOk(TheWorld())
  {
  }

  lemma TheyOwnEachOther()
    ensures OwnEachOther(TheWorld(), "a", "b")
  {
    OnlyTheOwner("a", "b");
    OnlyTheOwner("b", "a");
    hide Owner, OnlyFinds;
    assert "a"[0] != "b"[0];
  }

  lemma OnlyTheOwner(first: string, second: string)
    requires (first == "a" && second == "b") || (first == "b" && second == "a")
    ensures Owner(TheWorld(), Found(first, first), Found(second, first))
    ensures OnlyFinds(TheWorld(), Found(first, first), Found(second, first))
  {
    var w := TheWorld();
    TheOwner(first, second);
    forall x, ty, targetNamespace
      ensures Edge(w, Found(first, first), x, ty, targetNamespace, false) ==> x == Found(second, first) && ty == OwnerReference
    {
      NothingRelated(first, x, ty, targetNamespace);
      NoChildren(Found(first, first), x);
      hide Down, Up, Child, Component, Got, TheWorld;
    }
  }

  lemma TheOwner(first: string, second: string)
    requires (first == "a" && second == "b") || (first == "b" && second == "a")
    ensures Got(TheWorld(), NAMESPACE, first, first) == Some(Owned(first, second))
  {
    assert "a"[0] != "b"[0];
  }

  lemma NothingRelated(name: string, x: Node, ty: RelType, targetNamespace: string)
    ensures !Down(TheWorld(), Found(name, name), x, ty, targetNamespace, false) && !Up(TheWorld(), Found(name, name), x, ty, targetNamespace, false)
  {
    hide LeadsDown, LeadsUp;
    assert NAMESPACE !in TheWorld().relationships && "Pod"[0] != NAMESPACE[0];
  }

  lemma NoChildren(a: Node, x: Node)
    ensures !Child(TheWorld(), a, x) && !Component(TheWorld(), a, x)
  {
    assert ChildKinds(TheWorld()) == {};
  }

  /** In this world everything that is assumed holds but the premise on Namespaces, and a run about `a` nests calls to any depth. */
  lemma TheWorldLoops(s0: State, n: nat)
    requires s0.visited == []
    ensures WorldOk(TheWorld()) && !NamespacesUnowned(TheWorld())
    ensures var s3 := Entry(Entry(Entry(s0, Call(1, "a")), Call(2, "b")), Call(3, "a"));
            var here, there := if n % 2 == 0 then "a" else "b", if n % 2 == 0 then "b" else "a";
            GoesOn(TheWorld(), Nested(s3, 3, "a", "b", n), 3 + n, here, there)
  {
    hide OwnEachOther, Entry, GoesOn, Loops, Nested, WorldOk;
    TheWorldIsOk();
    TheyOwnEachOther();
    LoopIsReached(TheWorld(), s0, "a", "b");
    CallsNestForever(TheWorld(), Entry(Entry(Entry(s0, Call(1, "a")), Call(2, "b")), Call(3, "a")), 3, "a", "b", n);
    assert Owned("a", "b") in TheWorld().cluster.objects && OwnerOf(Owned("a", "b")).kind == NAMESPACE;
  }
}
