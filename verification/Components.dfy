/** What the composition engine shows below a resource, as owners and children in the cluster. */
module Components {
  import opened Connections
  import opened Cluster
  import opened CompositionTree
  import opened Ownership
  import opened RoundTrip
  import CompositionStore
  import Graph
  import Text

  /** The stored list is the flattened ownership tree of the resource in its namespace, in the cluster of `w`. */
  ghost predicate IsCurrent(w: Graph.World, item: CompositionStore.Compositions, view: View, t: Owned) {
    && view.cluster == w.cluster && view.registry.gvks == w.gvks && view.namespace == item.key.namespace != ""
    && IsTree(view, t) && t.kind == item.key.kind && t.meta.name == item.key.name
    && item.compositionTree == Preorder(t, 1)
  }

  // ---------------------------------------------------------------- what is shown was listed

  function ItemOf(c: Composition): Item {
    Item(Pair(c.level, c.kind), c.name, c.namespace, c.status)
  }

  lemma {:induction false} ShownIsCounted(children: seq<Composition>, c: Composition)
    requires c in children
    ensures ItemsBelow(children)[ItemOf(c)] > 0
  {
    if children[0] != c {
      ShownIsCounted(children[1..], c);
    }
  }

  lemma {:induction false} CountedIsListed(p: Pair, metas: seq<Meta>, item: Item)
    requires NodeItems(p, metas)[item] > 0
    ensures exists i :: 0 <= i < |metas| && metas[i].name == item.name && metas[i].namespace == item.namespace
  {
    if Item(p, metas[0].name, metas[0].namespace, metas[0].status) != item {
      CountedIsListed(p, metas[1..], item);
      var i :| 0 <= i < |metas| - 1 && metas[1..][i].name == item.name && metas[1..][i].namespace == item.namespace;
      assert metas[i + 1] == metas[1..][i];
    }
  }

  /** A child that is shown stands in the stored list, at its level. */
  lemma ShownIsListed(item: CompositionStore.Compositions, c: Composition) returns (i: nat, j: nat)
    requires c in Graph.ShownChildren(item)
    ensures i < |item.compositionTree| && j < |item.compositionTree[i].children|
    ensures item.compositionTree[i].level == c.level && item.compositionTree[i].childKind == c.kind
    ensures item.compositionTree[i].children[j].name == c.name && item.compositionTree[i].children[j].namespace == c.namespace
  {
    hide ItemsBelow, Compose;
    var meta := Meta(item.key.name, item.key.namespace, item.status, "", "");
    ShownIsCounted(Graph.ShownChildren(item), c);
    Conservation(item.key.kind, meta, 1, item.compositionTree, ItemOf(c));
    i := FirstNode(item.compositionTree, Pair(c.level, c.kind));
    CountedIsListed(Pair(c.level, c.kind), item.compositionTree[i].children, ItemOf(c));
    j :| 0 <= j < |item.compositionTree[i].children| && item.compositionTree[i].children[j].name == c.name
         && item.compositionTree[i].children[j].namespace == c.namespace;
  }

  /** For a tree of any shape: what is shown directly below the resource descends from it, by as many steps as its level says. */
  lemma ShownIsDescendant(w: Graph.World, item: CompositionStore.Compositions, view: View, t: Owned, c: Composition)
    requires IsCurrent(w, item, view, t) && c in Graph.ShownChildren(item)
    ensures c.level > 1 && Chain(view, c.level - 1, t.kind, t.meta.name, c.kind, c.name)
  {
    hide IsTree, Preorder, Chain, Graph.ShownChildren;
    var i, j := ShownIsListed(item, c);
    assert HasName(item.compositionTree[i].children, c.name);
    assert Holds(Preorder(t, 1), c.level, c.kind, c.name);
    PreorderExact(view, t, 1, c.level, c.kind, c.name);
  }

  // ---------------------------------------------------------------- steps of a chain

  lemma {:induction false} LastStep(view: View, n: nat, kind: string, name: string, childKind: string, childName: string)
    returns (k: string, m: string)
    requires n > 0 && Chain(view, n, kind, name, childKind, childName)
    ensures Chain(view, n - 1, kind, name, k, m) && IsChild(view, k, m, childKind, childName)
  {
    hide IsChild;
    var k0, m0 :| IsChild(view, kind, name, k0, m0) && Chain(view, n - 1, k0, m0, childKind, childName);
    if n == 1 {
      k, m := kind, name;
    } else {
      k, m := LastStep(view, n - 1, k0, m0, childKind, childName);
    }
  }

  /** What is assumed for chains to be followed back: no object of the namespace has two owners, and no kind is nameless. */
  ghost predicate SingleOwners(w: Graph.World, namespace: string) {
    (forall o :: o in w.cluster.objects && o.namespace == namespace ==> |o.owners| <= 1) && "" !in w.gvks
  }

  lemma ListedIsObject(view: View, kind: string, o: Object)
    requires o in Listed(view.cluster, GvkOf(view.registry.gvks, kind), view.namespace)
    ensures o in view.cluster.objects && (view.namespace != "" ==> o.namespace == view.namespace)
    ensures kind != "" || kind in view.registry.gvks
  {
  }

  /** The only owner of a listed object is the owner that discovery finds. */
  lemma ListedHasOwner(w: Graph.World, view: View, kind: string, o: Object, owner: Node)
    requires WellFormed(w.cluster) && view.cluster == w.cluster && view.registry.gvks == w.gvks && view.namespace != ""
    requires o in Listed(view.cluster, GvkOf(view.registry.gvks, kind), view.namespace)
    requires OwnedBy(o, owner.kind, owner.name) && |o.owners| <= 1 && owner.kind != "" && owner.name != ""
    ensures Graph.Owner(w, Node(kind, o.name, o.namespace), owner)
    ensures Graph.Got(w, kind, o.name, view.namespace) == Some(o)
  {
    FoundIsUnique(w.cluster, o);
  }

  /** A step from parent to child is an owner edge back. */
  lemma ChildHasOwner(w: Graph.World, view: View, kind: string, name: string, childKind: string, childName: string)
    requires Graph.WorldOk(w) && SingleOwners(w, view.namespace) && view.cluster == w.cluster && view.registry.gvks == w.gvks && view.namespace != ""
    requires IsChild(view, kind, name, childKind, childName) && kind != "" && name != ""
    ensures childKind != "" && Graph.Named(childName)
    ensures forall owner: Node :: owner.namespace == view.namespace ==>
              (Graph.Owner(w, Node(childKind, childName, view.namespace), owner) <==> owner == Node(kind, name, view.namespace))
  {
    var o :| o in Listed(view.cluster, GvkOf(view.registry.gvks, childKind), view.namespace) && o.name == childName && OwnedBy(o, kind, name);
    ListedIsObject(view, childKind, o);
    ListedHasOwner(w, view, childKind, o, Node(kind, name, view.namespace));
    assert o in w.cluster.objects;
  }

  /** Nobody on a chain from a proper resource is nameless. */
  lemma {:induction false} ChainIsProper(w: Graph.World, view: View, n: nat, kind: string, name: string, childKind: string, childName: string)
    requires Graph.WorldOk(w) && SingleOwners(w, view.namespace) && view.cluster == w.cluster && view.registry.gvks == w.gvks && view.namespace != ""
    requires Chain(view, n, kind, name, childKind, childName) && kind != "" && Graph.Named(name)
    ensures childKind != "" && Graph.Named(childName)
  {
    hide Graph.WorldOk, SingleOwners, IsChild, Graph.Owner;
    if n > 0 {
      var k, m := LastStep(view, n, kind, name, childKind, childName);
      ChainIsProper(w, view, n - 1, kind, name, k, m);
      ChildHasOwner(w, view, k, m, childKind, childName);
    }
  }

  // ---------------------------------------------------------------- direct components

  /** With single owners, a shown child has the resource as its owner exactly when it is shown at Level 2. */
  lemma DirectIffLevelTwo(w: Graph.World, item: CompositionStore.Compositions, view: View, t: Owned, c: Composition)
    requires Graph.WorldOk(w) && SingleOwners(w, item.key.namespace) && IsCurrent(w, item, view, t) && c in Graph.ShownChildren(item)
    requires item.key.kind != "" && Graph.Named(item.key.name)
    ensures Graph.Owner(w, Node(c.kind, c.name, item.key.namespace), item.key) <==> c.level == 2
  {
    hide Graph.WorldOk, SingleOwners, IsTree, Preorder, IsChild, Graph.Owner, Graph.ShownChildren;
    ShownIsDescendant(w, item, view, t, c);
    var k, m := LastStep(view, c.level - 1, t.kind, t.meta.name, c.kind, c.name);
    ChainIsProper(w, view, c.level - 2, t.kind, t.meta.name, k, m);
    ChildHasOwner(w, view, k, m, c.kind, c.name);
    if c.level > 2 && k == t.kind && m == t.meta.name {
      assert Chain(view, 0, t.kind, t.meta.name, t.kind, t.meta.name);
      CycleHasNoTree(view, t, 0, t.kind, t.meta.name, c.level - 2);
    }
  }

  ghost predicate AtLevel(children: seq<Composition>, level: int) {
    forall i :: 0 <= i < |children| ==> children[i].level == level
  }

  lemma {:induction false} LeafScanLevels(nodes: seq<TreeNode>, done: set<Pair>, level: int)
    ensures AtLevel(LeafScan(nodes, done), level) <==>
            forall n :: n in nodes && n.children != [] ==> n.level == level || PairOf(n) in done
  {
    if nodes != [] {
      assert forall n :: n in nodes <==> n == nodes[0] || n in nodes[1..];
      if Skipped(nodes[0], done) {
        LeafScanLevels(nodes[1..], done, level);
      } else {
        LeafScanLevels(nodes[1..], done + {PairOf(nodes[0])}, level);
        AtLevelConcat(Leaves(nodes[0].childKind, nodes[0].level, nodes[0].children),
                      LeafScan(nodes[1..], done + {PairOf(nodes[0])}), level);
        assert Leaves(nodes[0].childKind, nodes[0].level, nodes[0].children)[0].level == nodes[0].level;
      }
    }
  }

  lemma AtLevelConcat(a: seq<Composition>, b: seq<Composition>, level: int)
    ensures AtLevel(a + b, level) <==> AtLevel(a, level) && AtLevel(b, level)
  {
    var all := a + b;
    assert forall i :: 0 <= i < |a| ==> a[i] == all[i];
    assert forall i :: 0 <= i < |b| ==> b[i] == all[|a| + i];
  }

  /** No object deeper down is of the kind of the resource's first children. */
  ghost predicate FirstKindStaysUp(t: Owned) {
    var i := FirstGroup(t.groups, 0);
    i < |t.groups| ==> forall n :: n in Preorder(t, 1) && n.children != [] && n.childKind == t.groups[i].kind ==> n.level == 2
  }

  /** All shown children are direct exactly then, whatever else the tree looks like. */
  lemma DirectIffFirstKindStaysUp(w: Graph.World, item: CompositionStore.Compositions, view: View, t: Owned)
    requires IsCurrent(w, item, view, t)
    ensures AtLevel(Graph.ShownChildren(item), 2) <==> FirstKindStaysUp(t)
  {
    hide IsTree, Preorder, Compose, LeafScan, NonEmpty, Trimmed;
    var meta := Meta(item.key.name, item.key.namespace, item.status, "", "");
    var i := FirstGroup(t.groups, 0);
    var list := NonEmpty(Preorder(t, 1));
    ComposeNonEmpty(t.kind, meta, 1, Preorder(t, 1), []);
    if i == |t.groups| {
      BareHasNothing(t, 1);
      NothingComposed(t.kind, meta, 1);
    } else {
      HeadNodes(t, i, 1);
      var rest := NonEmpty(PreorderMembers(t.groups[i].members, 0, 2)) + NonEmpty(PreorderGroups(t.groups, i + 1, 2));
      assert forall n :: n in list <==> n == NodeOf(t.groups[i], 2) || n in rest;
      assert NodeOf(t.groups[i], 2).children != [];
      assert forall n :: n in rest ==> n.children != [];
      DirectBelowHead(t.kind, meta, NodeOf(t.groups[i], 2), rest);
    }
  }

  lemma NothingComposed(kind: string, meta: Meta, level: int)
    ensures Compose(kind, meta, level, [], []).0.children == []
  {
  }

  lemma DirectBelowHead(kind: string, meta: Meta, n: TreeNode, rest: seq<TreeNode>)
    requires n.children != [] && forall m :: m in rest ==> m.children != []
    ensures AtLevel(Compose(kind, meta, 1, [n] + rest, []).0.children, n.level) <==>
            forall m :: m in rest && m.childKind == n.childKind ==> m.level == n.level
  {
    var trimmed := Trimmed(rest, n.level, n.childKind);
    assert Pairs([]) == {};
    ComposeHead(kind, meta, 1, n, rest, []);
    var first := Compose(n.childKind, n.children[0], n.level, trimmed, [] + [n]).0;
    var leaves := Leaves(n.childKind, n.level, n.children[1..]);
    var done := {} + {PairOf(n)} + Used(trimmed);
    assert first.level == n.level;
    hide Compose, LeafScan;
    AtLevelConcat([first] + leaves, LeafScan(rest, done), n.level);
    AtLevelConcat([first], leaves, n.level);
    assert AtLevel([first] + leaves, n.level);
    LeafScanLevels(rest, done, n.level);
    forall m | m in rest && m.level != n.level
      ensures PairOf(m) in done <==> m.childKind != n.childKind
    {
      if m.childKind != n.childKind {
        TrimmedKeeps(rest, n.level, n.childKind, m);
      }
      UsedTrimmed(rest, n.level, n.childKind);
    }
  }

  lemma {:induction false} TrimmedKeeps(tree: seq<TreeNode>, level: int, childKind: string, n: TreeNode)
    requires n in tree && n.children != [] && n.level != level && n.childKind != childKind
    ensures PairOf(n) in Used(Trimmed(tree, level, childKind))
  {
    var trimmed := Trimmed(tree, level, childKind);
    if tree[0] == n {
      assert trimmed[0] == n;
    } else {
      TrimmedKeeps(tree[1..], level, childKind, n);
      var rest := Trimmed(tree[1..], level, childKind);
      var i :| 0 <= i < |rest| && rest[i].children != [] && PairOf(rest[i]) == PairOf(n);
      assert trimmed == rest || trimmed[i + 1] == rest[i];
    }
  }

  // ---------------------------------------------------------------- names, kinds and namespaces of components

  ghost predicate InNamespace(nodes: seq<TreeNode>, namespace: string) {
    forall n, m :: n in nodes && m in n.children ==> m.namespace == namespace
  }

  lemma InNamespaceConcat(a: seq<TreeNode>, b: seq<TreeNode>, namespace: string)
    ensures InNamespace(a + b, namespace) <==> InNamespace(a, namespace) && InNamespace(b, namespace)
  {
    assert forall n :: n in a + b <==> n in a || n in b;
  }

  lemma {:induction false} PreorderInNamespace(view: View, t: Owned, level: int)
    requires IsTree(view, t) && view.namespace != ""
    ensures InNamespace(Preorder(t, level), view.namespace)
    decreases t, 1, 0
  {
    GroupsInNamespace(view, t, 0, level + 1);
  }

  lemma {:induction false} GroupsInNamespace(view: View, t: Owned, i: nat, level: int)
    requires IsTree(view, t) && view.namespace != "" && i <= |t.groups|
    ensures InNamespace(PreorderGroups(t.groups, i, level), view.namespace)
    decreases t, 0, |t.groups| - i
  {
    if i < |t.groups| {
      GroupInNamespace(view, t.kind, t.meta.name, Text.TrimSpace(ChildKinds(view.registry, t.kind)[i]), t.groups[i], level);
      GroupsInNamespace(view, t, i + 1, level);
      InNamespaceConcat(PreorderGroup(t.groups[i], level), PreorderGroups(t.groups, i + 1, level), view.namespace);
    }
  }

  lemma {:induction false} GroupInNamespace(view: View, kind: string, name: string, childKind: string, g: Group, level: int)
    requires IsGroup(view, kind, name, childKind, g) && view.namespace != ""
    ensures InNamespace(PreorderGroup(g, level), view.namespace)
    decreases g, 1, 0
  {
    hide IsTree, Listed;
    var node := TreeNode(level, g.kind, Metas(g.members));
    ListedInNamespace(view, kind, name, childKind);
    MembersInNamespace(view, g.members, 0, level);
    InNamespaceConcat([node], PreorderMembers(g.members, 0, level), view.namespace);
  }

  lemma ListedInNamespace(view: View, kind: string, name: string, childKind: string)
    requires view.namespace != ""
    ensures forall m :: m in ChildrenOf(view, kind, name, childKind) ==> m.namespace == view.namespace
  {
    var objects := Listed(view.cluster, GvkOf(view.registry.gvks, childKind), view.namespace);
    var metas := MetasOf(objects, kind, name);
    forall m | m in metas
      ensures m.namespace == view.namespace
    {
      var i :| 0 <= i < |metas| && metas[i] == m;
      ListedIsObject(view, childKind, objects[i]);
    }
  }

  lemma {:induction false} MembersInNamespace(view: View, members: seq<Owned>, i: nat, level: int)
    requires i <= |members| && (forall p :: 0 <= p < |members| ==> IsTree(view, members[p])) && view.namespace != ""
    ensures InNamespace(PreorderMembers(members, i, level), view.namespace)
    decreases members, 0, |members| - i
  {
    hide IsTree;
    if i < |members| {
      PreorderInNamespace(view, members[i], level);
      MembersInNamespace(view, members, i + 1, level);
      InNamespaceConcat(Preorder(members[i], level), PreorderMembers(members, i + 1, level), view.namespace);
    }
  }

  /** What is shown of a current entry has a kind and a name and is in the resource's namespace. */
  lemma CurrentIsProper(w: Graph.World, item: CompositionStore.Compositions, view: View, t: Owned, c: Composition)
    requires IsCurrent(w, item, view, t) && c in Graph.ShownChildren(item) && "" !in w.gvks
    requires forall o :: o in w.cluster.objects ==> Graph.Named(o.name)
    ensures c.kind != "" && Graph.Named(c.name) && c.namespace == item.key.namespace
  {
    hide IsTree, Preorder, Graph.ShownChildren, Chain;
    var i, j := ShownIsListed(item, c);
    PreorderInNamespace(view, t, 1);
    assert item.compositionTree[i] in Preorder(t, 1) && item.compositionTree[i].children[j] in item.compositionTree[i].children;
    ShownIsDescendant(w, item, view, t, c);
    var k, m := LastStep(view, c.level - 1, t.kind, t.meta.name, c.kind, c.name);
    var o :| o in Listed(view.cluster, GvkOf(view.registry.gvks, c.kind), view.namespace) && o.name == c.name;
    ListedIsObject(view, c.kind, o);
  }

  // ---------------------------------------------------------------- after a rebuild

  /** All entries of a store that was built once, from nothing, are current. */
  lemma BuiltIsCurrent(w: Graph.World, view: View, item: CompositionStore.Compositions)
    requires view.cluster == w.cluster && view.registry.gvks == w.gvks && view.namespace != "" && CompositionStore.Finite(view)
    requires CompositionStore.UniqueKeys(w.compositions) && item in w.compositions
    requires CompositionStore.AsMap(w.compositions) == CompositionStore.Rebuilt(map[], view)
    ensures exists v, t :: IsCurrent(w, item, v, t)
  {
    hide IsTree, Preorder, Listed, CompositionStore.Finite, CompositionStore.LiveNames;
    var i :| 0 <= i < |w.compositions| && w.compositions[i] == item;
    CompositionStore.MapsTo(w.compositions, i);
    assert item.key in CompositionStore.LiveKeys(view);
    var o := CompositionStore.LiveAt(view, item.key);
    ListedIsObject(view, item.key.kind, o);
    assert IsCurrent(w, item, CompositionStore.At(view, o), CompositionStore.TreeOf(view, item.key.kind, o));
  }
}
