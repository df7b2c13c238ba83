/** A StatefulSet below which getComposition shows a Pod of another owner. */
module Misplaced {
  import opened Cluster
  import opened CompositionTree
  import opened Ownership
  import opened RoundTrip
  import Rolling = RollingUpdate
  import Text

  /** An object with a leaf of its own, and with an owner of another kind that has a leaf of the same kind. */
  datatype Mixture = Mixture(kind: string, meta: Meta, leafKind: string, direct: Object, ownerKind: string, owner: Object, below: Object)

  ghost predicate InPlace(view: View, m: Mixture) {
    && ChildKinds(view.registry, m.kind) == [m.leafKind, m.ownerKind]
    && ChildKinds(view.registry, m.ownerKind) == [m.leafKind] && ChildKinds(view.registry, m.leafKind) == []
    && Text.TrimSpace(m.leafKind) == m.leafKind && Text.TrimSpace(m.ownerKind) == m.ownerKind && m.leafKind != m.ownerKind
    && Listed(view.cluster, GvkOf(view.registry.gvks, m.leafKind), view.namespace) == [m.direct, m.below]
    && Listed(view.cluster, GvkOf(view.registry.gvks, m.ownerKind), view.namespace) == [m.owner]
    && m.meta.name != "" && m.owner.name != "" && m.direct.name != m.below.name
    && OwnedBy(m.direct, m.kind, m.meta.name) && !OwnedBy(m.direct, m.ownerKind, m.owner.name)
    && OwnedBy(m.owner, m.kind, m.meta.name)
    && !OwnedBy(m.below, m.kind, m.meta.name) && OwnedBy(m.below, m.ownerKind, m.owner.name)
  }

  function LeafOf(m: Mixture, leaf: Object, kind: string, name: string): Owned {
    Owned(m.leafKind, MetaOf(leaf, kind, name), [])
  }

  function OwnerTree(m: Mixture): Owned {
    Owned(m.ownerKind, MetaOf(m.owner, m.kind, m.meta.name), [Group(m.leafKind, [LeafOf(m, m.below, m.ownerKind, m.owner.name)])])
  }

  function Tree(m: Mixture): Owned {
    Owned(m.kind, m.meta, [Group(m.leafKind, [LeafOf(m, m.direct, m.kind, m.meta.name)]), Group(m.ownerKind, [OwnerTree(m)])])
  }

  lemma ChildrenOfOne(child: Object, kind: string, name: string)
    requires name != "" && OwnedBy(child, kind, name)
    ensures Children(MetasOf([child], kind, name), name) == [MetaOf(child, kind, name)]
  {
    var metas := MetasOf([child], kind, name);
    assert metas == [MetaOf(child, kind, name)] && metas[..0] == [];
    assert Children([], name) == [];
  }

  lemma OwnerTreeIsTree(view: View, m: Mixture)
    requires InPlace(view, m)
    ensures IsTree(view, OwnerTree(m))
  {
    hide Listed, Children, MetasOf;
    var t := OwnerTree(m);
    Rolling.ChildrenOfTwo(m.direct, m.below, m.ownerKind, m.owner.name);
    assert Metas(t.groups[0].members) == [t.groups[0].members[0].meta];
    assert IsTree(view, t.groups[0].members[0]);
    hide IsTree;
    Rolling.OneGroup(view, t, m.leafKind);
  }

  lemma IsItsTree(view: View, m: Mixture)
    requires InPlace(view, m)
    ensures IsTree(view, Tree(m))
  {
    hide Listed, Children, MetasOf;
    var t := Tree(m);
    assert IsTree(view, t.groups[0].members[0]);
    OwnerTreeIsTree(view, m);
    Rolling.ChildrenOfTwo(m.direct, m.below, m.kind, m.meta.name);
    ChildrenOfOne(m.owner, m.kind, m.meta.name);
    assert Metas(t.groups[0].members) == [t.groups[0].members[0].meta];
    assert Metas(t.groups[1].members) == [t.groups[1].members[0].meta];
    hide IsTree, OwnerTree;
    TwoGroups(view, t, m.leafKind, m.ownerKind);
  }

  lemma TwoGroups(view: View, t: Owned, first: string, second: string)
    requires ChildKinds(view.registry, t.kind) == [first, second] && Text.TrimSpace(first) == first && Text.TrimSpace(second) == second
    requires |t.groups| == 2 && IsGroup(view, t.kind, t.meta.name, first, t.groups[0]) && IsGroup(view, t.kind, t.meta.name, second, t.groups[1])
    ensures IsTree(view, t)
  {
    hide IsGroup;
  }

  function List(m: Mixture): seq<TreeNode> {
    [TreeNode(2, m.leafKind, [MetaOf(m.direct, m.kind, m.meta.name)]), TreeNode(2, m.ownerKind, [MetaOf(m.owner, m.kind, m.meta.name)]),
     TreeNode(3, m.leafKind, [MetaOf(m.below, m.ownerKind, m.owner.name)])]
  }

  lemma OneLeafFlattened(g: Group, level: int)
    requires |g.members| == 1 && g.members[0].groups == []
    ensures PreorderGroup(g, level) == [TreeNode(level, g.kind, [g.members[0].meta])]
  {
    assert Preorder(g.members[0], level) == [];
    assert PreorderMembers(g.members, 1, level) == [];
    assert Metas(g.members) == [g.members[0].meta];
  }

  lemma Flattened(m: Mixture)
    ensures Preorder(Tree(m), 1) == List(m)
  {
    var groups, owned := Tree(m).groups, OwnerTree(m);
    OneLeafFlattened(groups[0], 2);
    OneLeafFlattened(owned.groups[0], 3);
    assert PreorderGroups(owned.groups, 1, 3) == [];
    assert Preorder(owned, 2) == PreorderGroup(owned.groups[0], 3);
    assert PreorderMembers(groups[1].members, 1, 2) == [];
    assert Metas(groups[1].members) == [owned.meta];
    assert PreorderGroups(groups, 2, 2) == [];
    assert PreorderGroups(groups, 1, 2) == PreorderGroup(groups[1], 2);
  }

  function Below(m: Mixture): Composition {
    Leaf(m.leafKind, 3, MetaOf(m.below, m.ownerKind, m.owner.name))
  }

  lemma BelowIsShown(m: Mixture)
    requires m.leafKind != m.ownerKind
    ensures Below(m) in Compose(m.kind, m.meta, 1, List(m), []).0.children
  {
    var list := List(m);
    assert list == [list[0]] + list[1..] && Pairs([]) == {};
    assert list[1..] == [list[1], list[2]];
    ComposeHead(m.kind, m.meta, 1, list[0], list[1..], []);
    hide Compose;
    NothingTrimmed(m, list);
    LeftOver(m, list, {PairOf(list[0])});
    assert {} + {PairOf(list[0])} + Used([]) == {PairOf(list[0])} by {
      assert Used([]) == {};
    }
  }

  lemma NothingTrimmed(m: Mixture, list: seq<TreeNode>)
    requires list == List(m)
    ensures Trimmed([list[1], list[2]], 2, m.leafKind) == []
  {
    assert [list[1], list[2]][1..] == [list[2]] && [list[2]][1..] == [];
  }

  lemma LeftOver(m: Mixture, list: seq<TreeNode>, done: set<Pair>)
    requires list == List(m) && m.leafKind != m.ownerKind && done == {Pair(2, m.leafKind)}
    ensures Below(m) in LeafScan([list[1], list[2]], done)
  {
    var mid := done + {PairOf(list[1])};
    assert [list[1], list[2]][1..] == [list[2]] && [list[2]][1..] == [];
    assert LeafScan([list[1], list[2]], done) == Leaves(m.ownerKind, 2, list[1].children) + LeafScan([list[2]], mid);
    assert LeafScan([list[2]], mid) == Leaves(m.leafKind, 3, list[2].children) + LeafScan([], mid + {PairOf(list[2])});
    assert Leaves(m.leafKind, 3, list[2].children)[0] == Below(m);
  }

  lemma BelowIsNoChild(view: View, m: Mixture)
    requires InPlace(view, m)
    ensures !IsChild(view, m.kind, m.meta.name, m.leafKind, m.below.name)
  {
    hide Listed;
  }

  /** The leaf two steps down is shown directly below the object, which does not own it. */
  lemma LeafIsMisplaced(view: View, m: Mixture)
    requires InPlace(view, m)
    ensures IsTree(view, Tree(m))
    ensures Below(m) in Compose(m.kind, m.meta, 1, Preorder(Tree(m), 1), []).0.children
    ensures !IsChild(view, m.kind, m.meta.name, m.leafKind, m.below.name)
  {
    IsItsTree(view, m);
    BelowIsNoChild(view, m);
    hide IsTree, IsChild, Preorder, Listed, Compose, List;
    Flattened(m);
    BelowIsShown(m);
  }

  // ---------------------------------------------------------------- a cluster where this is so

  /** A StatefulSet `s` with a Pod `p` and a ReplicaSet `r`, which has a Pod `q`. Both kinds are components of StatefulSets. */
  function Pods(): seq<Object> {
    [Rolling.Plain("Pod", "p", [OwnerRef("StatefulSet", "s")]), Rolling.Plain("Pod", "q", [OwnerRef("ReplicaSet", "r")])]
  }

  function ReplicaSets(): seq<Object> {
    [Rolling.Plain("ReplicaSet", "r", [OwnerRef("StatefulSet", "s")])]
  }

  function TheView(): View {
    var replicaSets, pods := Gvk("apps", "v1", "replicasets"), Gvk("", "v1", "pods");
    View(Cluster([Rolling.Plain("StatefulSet", "s", [])] + ReplicaSets() + Pods(),
                 map[replicaSets := Resource("ReplicaSet", true), pods := Resource("Pod", true)]),
         Registry(map["ReplicaSet" := replicaSets, "Pod" := pods], map["StatefulSet" := ["Pod", "ReplicaSet"], "ReplicaSet" := ["Pod"]]),
         "ns")
  }

  function TheMixture(): Mixture {
    Mixture("StatefulSet", Meta("s", "ns", "", "", ""), "Pod", Pods()[0], "ReplicaSet", ReplicaSets()[0], Pods()[1])
  }

  lemma TheListing()
    ensures Select(TheView().cluster.objects, "ReplicaSet", "ns") == ReplicaSets()
    ensures Select(TheView().cluster.objects, "Pod", "ns") == Pods()
  {
    assert "ReplicaSet"[0] != "StatefulSet"[0] && "Pod"[0] != "StatefulSet"[0] && "Pod"[0] != "ReplicaSet"[0];
    Rolling.SelectParts([Rolling.Plain("StatefulSet", "s", [])], ReplicaSets(), Pods(), "ReplicaSet", "Pod", "ns");
  }

  lemma TheOwners()
    ensures var m := TheMixture();
            && OwnedBy(m.direct, "StatefulSet", "s") && !OwnedBy(m.direct, "ReplicaSet", "r") && OwnedBy(m.owner, "StatefulSet", "s")
            && !OwnedBy(m.below, "StatefulSet", "s") && OwnedBy(m.below, "ReplicaSet", "r")
  {
    assert "ReplicaSet"[0] != "StatefulSet"[0];
  }

  lemma TheMixtureIsInPlace()
    ensures InPlace(TheView(), TheMixture())
  {
    TheListing();
    TheOwners();
    Rolling.KindsAreTrimmed();
    hide Select, Text.TrimSpace, OwnedBy;
    assert "p"[0] != "q"[0] && "Pod"[0] != "ReplicaSet"[0];
    assert ReplicaSets() == [ReplicaSets()[0]] && Pods() == [Pods()[0], Pods()[1]];
  }

  /** Pod `q` is shown directly below the StatefulSet. */
  lemma PodIsMisplaced()
    ensures IsTree(TheView(), Tree(TheMixture())) && !IsChild(TheView(), "StatefulSet", "s", "Pod", "q")
    ensures exists c :: c in Compose("StatefulSet", TheMixture().meta, 1, Preorder(Tree(TheMixture()), 1), []).0.children
                        && c.kind == "Pod" && c.name == "q" && c.level == 3
  {
    hide InPlace, Preorder, Compose, IsTree, IsChild, TheView;
    TheMixtureIsInPlace();
    LeafIsMisplaced(TheView(), TheMixture());
  }
}
