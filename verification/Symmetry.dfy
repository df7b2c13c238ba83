/** Where one can walk back: from anything that is found to where it was found from. */
module Symmetry {
  import opened Connections
  import opened Cluster
  import opened Components
  import opened CompositionTree
  import opened Graph
  import opened Matching
  import opened Reachability
  import CompositionStore
  import Ownership

  // ---------------------------------------------------------------- from components back to what they are components of

  /** From every component that is not ignored one can walk back. */
  ghost predicate ComponentsReturn(w: World, namespace: string, sure: bool) {
    forall a: Node, b: Node :: Proper(w, a, namespace) && Component(w, a, b) && !Ignored(w, b) ==> Reachable(w, sure, b, a)
  }

  /** Components have what they are components of as their owner. */
  ghost predicate ComponentsOwned(w: World, namespace: string) {
    forall a: Node, b: Node :: Proper(w, a, namespace) && Component(w, a, b) ==> Owner(w, b, a)
  }

  /** What is stored are the flattened ownership trees of this cluster. */
  ghost predicate StoredTrees(w: World) {
    forall item :: item in w.compositions ==> exists view, t :: IsCurrent(w, item, view, t)
  }

  lemma OwnedComponentsReturn(w: World, namespace: string, sure: bool)
    requires WorldOk(w) && ComponentsOwned(w, namespace)
    ensures ComponentsReturn(w, namespace, sure)
  {
    hide WorldOk, Owner, Ignored;
    forall a: Node, b: Node | Proper(w, a, namespace) && Component(w, a, b) && !Ignored(w, b)
      ensures Reachable(w, sure, b, a)
    {
      ComponentNamespace(w, a, b);
      assert Joined(w, sure, b, a) by {
        assert Edge(w, b, a, OwnerReference, b.namespace, sure);
      }
      assert Walk(w, sure, 0, b, b);
      assert Walk(w, sure, 1, b, a);
    }
  }

  lemma ComponentNamespace(w: World, a: Node, b: Node)
    requires WorldOk(w) && Component(w, a, b)
    ensures b.namespace == a.namespace
  {
  }

  /** A chain from owner to owned is a walk from owned to owner. */
  lemma {:induction false} ChainIsWalkBack(w: World, view: Ownership.View, n: nat, sure: bool, owner: Node, kind: string, name: string)
    requires WorldOk(w) && SingleOwners(w, owner.namespace) && (forall x :: !Ignored(w, x))
    requires view.cluster == w.cluster && view.registry.gvks == w.gvks && view.namespace == owner.namespace != ""
    requires owner.kind != "" && Named(owner.name) && Ownership.Chain(view, n, owner.kind, owner.name, kind, name)
    ensures Walk(w, sure, n, Node(kind, name, owner.namespace), owner)
    decreases n
  {
    hide WorldOk, SingleOwners, Ownership.IsChild, Owner, Ignored;
    if n > 0 {
      var k, m :| Ownership.IsChild(view, owner.kind, owner.name, k, m) && Ownership.Chain(view, n - 1, k, m, kind, name);
      var child := Node(k, m, owner.namespace);
      ChildHasOwner(w, view, owner.kind, owner.name, k, m);
      ChainIsWalkBack(w, view, n - 1, sure, child, kind, name);
      assert Edge(w, child, owner, OwnerReference, child.namespace, sure);
      assert Joined(w, sure, child, owner);
    }
  }

  /** Where trees are stored, of whatever shape, and objects have one owner, one can walk back from all components that are
      shown, wherever getComposition puts them: as long as nothing is ignored. */
  lemma StoredComponentsReturn(w: World, namespace: string, sure: bool)
    requires WorldOk(w) && SingleOwners(w, namespace) && StoredTrees(w) && (forall x :: !Ignored(w, x))
    ensures ComponentsReturn(w, namespace, sure)
  {
    hide WorldOk, SingleOwners, Owner, Ignored, IsCurrent, ShownChildren, Walk;
    forall a: Node, b: Node | Proper(w, a, namespace) && Component(w, a, b)
      ensures Reachable(w, sure, b, a)
    {
      var item, c :| item in w.compositions && item.key == a && c in ShownChildren(item) && Node(c.kind, c.name, c.namespace) == b;
      var view, t :| IsCurrent(w, item, view, t);
      ComponentNamespace(w, a, b);
      ShownIsDescendant(w, item, view, t, c);
      CurrentView(w, item, view, t);
      ChainIsWalkBack(w, view, c.level - 1, sure, a, c.kind, c.name);
    }
  }

  lemma CurrentView(w: World, item: CompositionStore.Compositions, view: Ownership.View, t: Ownership.Owned)
    requires IsCurrent(w, item, view, t)
    ensures view.cluster == w.cluster && view.registry.gvks == w.gvks && view.namespace == item.key.namespace != ""
    ensures t.kind == item.key.kind && t.meta.name == item.key.name
  {
  }

  // ---------------------------------------------------------------- walks back

  lemma {:induction false} WalkToProper(w: World, sure: bool, n: nat, a: Node, x: Node)
    requires Symmetric(w, a.namespace) && Proper(w, a, a.namespace) && Walk(w, sure, n, a, x)
    ensures Proper(w, x, a.namespace)
  {
    hide Symmetric, Edge, Ignored;
    if x != a {
      var y :| Walk(w, sure, n - 1, a, y) && !Ignored(w, y) && Joined(w, sure, y, x);
      WalkToProper(w, sure, n - 1, a, y);
      var ty :| Edge(w, y, x, ty, y.namespace, sure);
      EdgesGoBack(w, y, x, ty, sure);
    }
  }

  lemma StepBack(w: World, sure: bool, y: Node, x: Node)
    requires Symmetric(w, y.namespace) && ComponentsReturn(w, y.namespace, sure)
    requires Proper(w, y, y.namespace) && Joined(w, sure, y, x) && !Ignored(w, x)
    ensures Reachable(w, sure, x, y) && x.namespace == y.namespace
  {
    hide Symmetric, Edge, Ignored, Component;
    var ty :| Edge(w, y, x, ty, y.namespace, sure);
    EdgesGoBack(w, y, x, ty, sure);
    if Edge(w, x, y, ty, x.namespace, sure) {
      assert Joined(w, sure, x, y);
      assert Walk(w, sure, 0, x, x);
      assert Walk(w, sure, 1, x, y);
    }
  }

  /** In a symmetric world from whose components one can walk back, every walk can be walked back. */
  lemma {:induction false} WalkBack(w: World, sure: bool, n: nat, a: Node, x: Node)
    requires Symmetric(w, a.namespace) && ComponentsReturn(w, a.namespace, sure)
    requires Proper(w, a, a.namespace) && Walk(w, sure, n, a, x) && !Ignored(w, x)
    ensures Reachable(w, sure, x, a)
    decreases n
  {
    hide Symmetric, ComponentsReturn, Edge, Ignored;
    if x == a {
      assert Walk(w, sure, 0, x, a);
    } else {
      var y :| Walk(w, sure, n - 1, a, y) && !Ignored(w, y) && Joined(w, sure, y, x);
      WalkToProper(w, sure, n - 1, a, y);
      StepBack(w, sure, y, x);
      WalkBack(w, sure, n - 1, a, y);
      ReachableTransitive(w, sure, x, y, a);
    }
  }

  lemma ReachableTransitive(w: World, sure: bool, a: Node, b: Node, c: Node)
    requires Reachable(w, sure, a, b) && Reachable(w, sure, b, c)
    ensures Reachable(w, sure, a, c)
  {
    hide Walk;
    var n: nat :| Walk(w, sure, n, a, b);
    var m: nat :| Walk(w, sure, m, b, c);
    WalkConcat(w, sure, n, m, a, b, c);
  }

  lemma {:induction false} WalksIgnoreTheOriginal(w: World, original: Node, sure: bool, n: nat, a: Node, x: Node)
    requires w.original.namespace == original.namespace == a.namespace
    ensures Walk(w, sure, n, a, x) <==> Walk(w.(original := original), sure, n, a, x)
  {
    var other := w.(original := original);
    assert forall y :: Ignored(w, y) <==> Ignored(other, y);
    hide Edge, Ignored;
    if n > 0 {
      forall y: Node | y.namespace == a.namespace
        ensures Joined(w, sure, y, x) <==> Joined(other, sure, y, x)
      {
        forall ty
          ensures Edge(w, y, x, ty, y.namespace, sure) <==> Edge(other, y, x, ty, y.namespace, sure)
        {
          EdgesIgnoreTheOriginal(w, original, y, x, ty, sure);
        }
      }
      forall y
        ensures Walk(w, sure, n - 1, a, y) <==> Walk(other, sure, n - 1, a, y)
        ensures Walk(w, sure, n - 1, a, y) ==> y.namespace == a.namespace
      {
        WalksIgnoreTheOriginal(w, original, sure, n - 1, a, y);
        if Walk(w, sure, n - 1, a, y) {
          WalkStaysInNamespace(w, sure, n - 1, a, y);
        }
      }
    }
  }

  /** What can be reached is the same from wherever in it one starts. */
  lemma SameReach(w: World, sure: bool, a: Node, b: Node, x: Node)
    requires Symmetric(w, a.namespace) && ComponentsReturn(w, a.namespace, sure)
    requires Proper(w, a, a.namespace) && !Ignored(w, b) && b.namespace == a.namespace
    requires Reachable(w, sure, a, b)
    ensures Reachable(w, sure, a, x) <==> Reachable(w.(original := b), sure, b, x)
  {
    hide Symmetric, ComponentsReturn, Ignored, Walk;
    var n: nat :| Walk(w, sure, n, a, b);
    WalkBack(w, sure, n, a, b);
    SymmetricNamespace(w, a.namespace);
    ReachIgnoresTheOriginal(w, b, sure, b, x);
    if Reachable(w, sure, a, x) {
      ReachableTransitive(w, sure, b, a, x);
    }
    if Reachable(w, sure, b, x) {
      ReachableTransitive(w, sure, a, b, x);
    }
  }

  lemma ReachIgnoresTheOriginal(w: World, original: Node, sure: bool, a: Node, x: Node)
    requires w.original.namespace == original.namespace == a.namespace
    ensures Reachable(w, sure, a, x) <==> Reachable(w.(original := original), sure, a, x)
  {
    hide Walk;
    forall n: nat
      ensures Walk(w, sure, n, a, x) <==> Walk(w.(original := original), sure, n, a, x)
    {
      WalksIgnoreTheOriginal(w, original, sure, n, a, x);
    }
  }

  lemma SymmetricNamespace(w: World, namespace: string)
    requires Symmetric(w, namespace)
    ensures w.original.namespace == namespace
  {
  }
}
