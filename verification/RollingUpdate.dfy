/** A Deployment during a rolling update, which getComposition does not give back. */
module RollingUpdate {
  import opened Cluster
  import opened CompositionTree
  import opened FieldSearch
  import opened Ownership
  import opened RoundTrip
  import Text

  /** Two owners of one kind below an object, each with a single object of its own. */
  datatype Update = Update(kind: string, meta: Meta, ownerKind: string, older: Object, newer: Object,
                           leafKind: string, first: Object, second: Object)

  ghost predicate InProgress(view: View, u: Update) {
    && ChildKinds(view.registry, u.kind) == [u.ownerKind] && Text.TrimSpace(u.ownerKind) == u.ownerKind
    && ChildKinds(view.registry, u.ownerKind) == [u.leafKind] && Text.TrimSpace(u.leafKind) == u.leafKind
    && ChildKinds(view.registry, u.leafKind) == []
    && Listed(view.cluster, GvkOf(view.registry.gvks, u.ownerKind), view.namespace) == [u.older, u.newer]
    && Listed(view.cluster, GvkOf(view.registry.gvks, u.leafKind), view.namespace) == [u.first, u.second]
    && u.meta.name != "" && u.older.name != "" && u.newer.name != "" && u.older.name != u.newer.name && u.first.name != u.second.name
    && OwnedBy(u.older, u.kind, u.meta.name) && OwnedBy(u.newer, u.kind, u.meta.name)
    && OwnedBy(u.first, u.ownerKind, u.older.name) && !OwnedBy(u.first, u.ownerKind, u.newer.name)
    && OwnedBy(u.second, u.ownerKind, u.newer.name) && !OwnedBy(u.second, u.ownerKind, u.older.name)
  }

  function Branch(u: Update, owner: Object, leaf: Object): Owned {
    Owned(u.ownerKind, MetaOf(owner, u.kind, u.meta.name),
          [Group(u.leafKind, [Owned(u.leafKind, MetaOf(leaf, u.ownerKind, owner.name), [])])])
  }

  function Tree(u: Update): Owned {
    Owned(u.kind, u.meta, [Group(u.ownerKind, [Branch(u, u.older, u.first), Branch(u, u.newer, u.second)])])
  }

  /** The children of one parent among two objects. */
  lemma ChildrenOfTwo(first: Object, second: Object, kind: string, name: string)
    requires first.name != second.name && name != ""
    ensures Children(MetasOf([first, second], kind, name), name) ==
            (if OwnedBy(first, kind, name) then [MetaOf(first, kind, name)] else [])
            + (if OwnedBy(second, kind, name) then [MetaOf(second, kind, name)] else [])
  {
    var metas := MetasOf([first, second], kind, name);
    assert metas == [MetaOf(first, kind, name), MetaOf(second, kind, name)];
    assert metas[..1] == [MetaOf(first, kind, name)] && metas[..1][..0] == [];
    assert Children([], name) == [];
    assert Children(metas[..1], name) == if OwnedBy(first, kind, name) then [MetaOf(first, kind, name)] else [];
  }

  /** A tree with a single group. */
  lemma OneGroup(view: View, t: Owned, childKind: string)
    requires ChildKinds(view.registry, t.kind) == [childKind] && Text.TrimSpace(childKind) == childKind
    requires |t.groups| == 1 && t.groups[0].kind == childKind
    requires Metas(t.groups[0].members) == ChildrenOf(view, t.kind, t.meta.name, childKind)
    requires forall i :: 0 <= i < |t.groups[0].members| ==> t.groups[0].members[i].kind == childKind && IsTree(view, t.groups[0].members[i])
    ensures IsTree(view, t)
  {
    hide ChildrenOf;
    assert IsGroup(view, t.kind, t.meta.name, childKind, t.groups[0]);
  }

  lemma BranchIsTree(view: View, u: Update, owner: Object, leaf: Object)
    requires InProgress(view, u)
    requires (owner == u.older && leaf == u.first) || (owner == u.newer && leaf == u.second)
    ensures IsTree(view, Branch(u, owner, leaf))
  {
    hide Listed, Children, MetasOf;
    var t := Branch(u, owner, leaf);
    ChildrenOfTwo(u.first, u.second, u.ownerKind, owner.name);
    assert Metas(t.groups[0].members) == [t.groups[0].members[0].meta];
    assert IsTree(view, t.groups[0].members[0]);
    hide IsTree;
    OneGroup(view, t, u.leafKind);
  }

  lemma BranchRoots(u: Update)
    ensures Branch(u, u.older, u.first).kind == u.ownerKind && Branch(u, u.older, u.first).meta == MetaOf(u.older, u.kind, u.meta.name)
    ensures Branch(u, u.newer, u.second).kind == u.ownerKind && Branch(u, u.newer, u.second).meta == MetaOf(u.newer, u.kind, u.meta.name)
  {
  }

  /** This is the ownership tree. */
  lemma IsItsTree(view: View, u: Update)
    requires InProgress(view, u)
    ensures IsTree(view, Tree(u))
  {
    hide Listed, Children, MetasOf, IsTree, Branch;
    var t := Tree(u);
    BranchRoots(u);
    ChildrenOfTwo(u.older, u.newer, u.kind, u.meta.name);
    BranchIsTree(view, u, u.older, u.first);
    BranchIsTree(view, u, u.newer, u.second);
    assert Metas(t.groups[0].members) == [t.groups[0].members[0].meta, t.groups[0].members[1].meta];
    OneGroup(view, t, u.ownerKind);
  }

  function LeafNode(u: Update, owner: Object, leaf: Object): TreeNode {
    TreeNode(3, u.leafKind, [MetaOf(leaf, u.ownerKind, owner.name)])
  }

  /** And this is what buildCompositions lists. */
  function List(u: Update): seq<TreeNode> {
    [TreeNode(2, u.ownerKind, [MetaOf(u.older, u.kind, u.meta.name), MetaOf(u.newer, u.kind, u.meta.name)]),
     LeafNode(u, u.older, u.first), LeafNode(u, u.newer, u.second)]
  }

  lemma BranchFlattened(u: Update, owner: Object, leaf: Object)
    ensures Preorder(Branch(u, owner, leaf), 2) == [LeafNode(u, owner, leaf)]
  {
    var groups := Branch(u, owner, leaf).groups;
    var g := groups[0];
    assert Preorder(g.members[0], 3) == [];
    assert PreorderMembers(g.members, 1, 3) == [];
    assert PreorderMembers(g.members, 0, 3) == [];
    assert PreorderGroups(groups, 1, 3) == [];
    assert Metas(g.members) == [g.members[0].meta];
    assert PreorderGroups(groups, 0, 3) == PreorderGroup(g, 3);
  }

  lemma Flattened(u: Update)
    ensures Preorder(Tree(u), 1) == List(u)
  {
    var t := Tree(u);
    var members := t.groups[0].members;
    BranchFlattened(u, u.older, u.first);
    BranchFlattened(u, u.newer, u.second);
    assert PreorderMembers(members, 2, 2) == [];
    assert PreorderMembers(members, 1, 2) == Preorder(members[1], 2);
    assert PreorderMembers(members, 0, 2) == Preorder(members[0], 2) + Preorder(members[1], 2);
    assert Metas(members) == [members[0].meta, members[1].meta];
    assert PreorderGroups(t.groups, 1, 2) == [];
    assert PreorderGroups(t.groups, 0, 2) == PreorderGroup(t.groups[0], 2);
  }

  /** The second leaf. */
  function Lost(u: Update): Item {
    Item(Pair(3, u.leafKind), u.second.name, u.second.namespace, Phase(u.second.content))
  }

  lemma CountedOnce(u: Update)
    requires u.ownerKind != u.leafKind && u.first.name != u.second.name
    ensures InFirstNode(List(u), Lost(u)) == 0 && AllItems(List(u))[Lost(u)] == 1
  {
    var list := List(u);
    assert list[1..][0] == list[1] && list[1..][1..] == [list[2]] && [list[2]][1..] == [];
    assert FirstNode(list, Pair(3, u.leafKind)) == 1;
    NodeItemsPair(PairOf(list[0]), list[0].children, Lost(u));
    assert list[1].children[1..] == [] && list[2].children[1..] == [];
    assert NodeItems(PairOf(list[1]), list[1].children)[Lost(u)] == 0;
    assert NodeItems(PairOf(list[2]), list[2].children)[Lost(u)] == 1;
    assert AllItems([]) == multiset{};
    assert AllItems([list[2]]) == NodeItems(PairOf(list[2]), list[2].children);
    assert AllItems(list[1..]) == NodeItems(PairOf(list[1]), list[1].children) + AllItems([list[2]]);
  }

  lemma NotASpine(u: Update)
    ensures !Spine(Tree(u))
  {
    var newer := Tree(u).groups[0].members[1];
    assert FirstGroup(newer.groups, 0) == 0;
    assert !Bare(newer);
  }

  /** The second leaf is listed once, and shown nowhere at all. */
  lemma LeafIsLost(view: View, u: Update)
    requires InProgress(view, u) && u.ownerKind != u.leafKind
    ensures IsTree(view, Tree(u))
    ensures AllItems(Preorder(Tree(u), 1))[Lost(u)] == 1
    ensures var shown := Compose(u.kind, u.meta, 1, Preorder(Tree(u), 1), []).0;
            ItemsBelow(shown.children)[Lost(u)] == 0 && shown != Shown(Tree(u), 1)
  {
    IsItsTree(view, u);
    assert u.first.name != u.second.name;
    hide InProgress, IsTree, Compose, ItemsBelow, List, Preorder, Shown, Spine;
    Flattened(u);
    Conservation(u.kind, u.meta, 1, List(u), Lost(u));
    CountedOnce(u);
    RoundTrip.RoundTrip(view, Tree(u));
    NotASpine(u);
  }

  // ---------------------------------------------------------------- a cluster where this is so

  lemma {:induction false} SelectConcat(a: seq<Object>, b: seq<Object>, kind: string, namespace: string)
    ensures Select(a + b, kind, namespace) == Select(a, kind, namespace) + Select(b, kind, namespace)
  {
    if a == [] {
      assert a + b == b;
    } else {
      assert (a + b)[1..] == a[1..] + b;
      SelectConcat(a[1..], b, kind, namespace);
    }
  }

  lemma {:induction false} SelectAllOrNone(objects: seq<Object>, kind: string, namespace: string)
    ensures AllOf(objects, kind, namespace) ==> Select(objects, kind, namespace) == objects
    ensures NoneOf(objects, kind) ==> Select(objects, kind, namespace) == []
  {
    if objects != [] {
      SelectAllOrNone(objects[1..], kind, namespace);
    }
  }

  ghost predicate AllOf(objects: seq<Object>, kind: string, namespace: string) {
    forall i :: 0 <= i < |objects| ==> objects[i].kind == kind && objects[i].namespace == namespace
  }

  ghost predicate NoneOf(objects: seq<Object>, kind: string) {
    forall i :: 0 <= i < |objects| ==> objects[i].kind != kind
  }

  lemma SelectParts(a: seq<Object>, b: seq<Object>, c: seq<Object>, kind: string, otherKind: string, namespace: string)
    requires NoneOf(a, kind) && AllOf(b, kind, namespace) && NoneOf(c, kind)
    requires NoneOf(a, otherKind) && NoneOf(b, otherKind) && AllOf(c, otherKind, namespace)
    ensures Select(a + b + c, kind, namespace) == b && Select(a + b + c, otherKind, namespace) == c
  {
    hide Select;
    forall k
      ensures Select(a + b + c, k, namespace) == Select(a, k, namespace) + Select(b, k, namespace) + Select(c, k, namespace)
    {
      SelectConcat(a + b, c, k, namespace);
      SelectConcat(a, b, k, namespace);
    }
    forall k, part | part == a || part == b || part == c
      ensures AllOf(part, k, namespace) ==> Select(part, k, namespace) == part
      ensures NoneOf(part, k) ==> Select(part, k, namespace) == []
    {
      SelectAllOrNone(part, k, namespace);
    }
  }

  /** A Deployment `d` with the ReplicaSets `o` and `n`, and their Pods `p` and `q`. */
  function Deployment(): seq<Object> {
    [Plain("Deployment", "d", [])]
  }

  function ReplicaSets(): seq<Object> {
    [Plain("ReplicaSet", "o", [OwnerRef("Deployment", "d")]), Plain("ReplicaSet", "n", [OwnerRef("Deployment", "d")])]
  }

  function Pods(): seq<Object> {
    [Plain("Pod", "p", [OwnerRef("ReplicaSet", "o")]), Plain("Pod", "q", [OwnerRef("ReplicaSet", "n")])]
  }

  function Plain(kind: string, name: string, owners: seq<OwnerRef>): Object {
    Object(kind, name, "ns", map[], map[], owners, JOther)
  }

  function TheView(): View {
    var replicaSets, pods := Gvk("apps", "v1", "replicasets"), Gvk("", "v1", "pods");
    View(Cluster(Deployment() + ReplicaSets() + Pods(), map[replicaSets := Resource("ReplicaSet", true), pods := Resource("Pod", true)]),
         Registry(map["ReplicaSet" := replicaSets, "Pod" := pods], map["Deployment" := ["ReplicaSet"], "ReplicaSet" := ["Pod"]]),
         "ns")
  }

  function TheUpdate(): Update {
    Update("Deployment", Meta("d", "ns", "", "", ""), "ReplicaSet", ReplicaSets()[0], ReplicaSets()[1], "Pod", Pods()[0], Pods()[1])
  }

  lemma TheListing()
    ensures Select(TheView().cluster.objects, "ReplicaSet", "ns") == ReplicaSets()
    ensures Select(TheView().cluster.objects, "Pod", "ns") == Pods()
  {
    assert "ReplicaSet"[0] != "Deployment"[0] && "Pod"[0] != "Deployment"[0] && "Pod"[0] != "ReplicaSet"[0];
    SelectParts(Deployment(), ReplicaSets(), Pods(), "ReplicaSet", "Pod", "ns");
  }

  lemma KindsAreTrimmed()
    ensures Text.TrimSpace("ReplicaSet") == "ReplicaSet" && Text.TrimSpace("Pod") == "Pod"
  {
    Text.TrimPadded("", "ReplicaSet", "");
    Text.TrimPadded("", "Pod", "");
    assert "" + "ReplicaSet" + "" == "ReplicaSet" && "" + "Pod" + "" == "Pod";
  }

  lemma TheUpdateIsInProgress()
    ensures InProgress(TheView(), TheUpdate()) && TheUpdate().ownerKind != TheUpdate().leafKind
  {
    TheListing();
    KindsAreTrimmed();
    hide Select, Text.TrimSpace;
    assert "o"[0] != "n"[0] && "p"[0] != "q"[0];
    assert ReplicaSets() == [ReplicaSets()[0], ReplicaSets()[1]] && Pods() == [Pods()[0], Pods()[1]];
  }

  /** Pod `q` of this cluster is listed once and shown nowhere, so the items are not conserved and the tree does not come back. */
  lemma PodIsLost()
    ensures IsTree(TheView(), Tree(TheUpdate())) && Tree(TheUpdate()).kind == "Deployment" && Lost(TheUpdate()).name == "q"
    ensures var list := Preorder(Tree(TheUpdate()), 1);
            var shown := Compose("Deployment", TheUpdate().meta, 1, list, []).0;
            && AllItems(list)[Lost(TheUpdate())] == 1 && ItemsBelow(shown.children)[Lost(TheUpdate())] == 0
            && shown != Shown(Tree(TheUpdate()), 1)
  {
    hide InProgress, Preorder, Compose, Shown, IsTree, AllItems, ItemsBelow;
    TheUpdateIsInProgress();
    LeafIsLost(TheView(), TheUpdate());
  }
}
