/** The status of a resource, from the cluster to what GetCompositions shows. */
module Statuses {
  import opened Connections
  import opened FieldSearch
  import opened Cluster
  import opened CompositionTree
  import opened CompositionStore
  import opened Ownership
  import Misplaced
  import Rolling = RollingUpdate
  import Text

  /** A ReplicaSet with one Pod, in whose status stand the phase and a reason. */
  function Pod(phase: string, reason: string): Object {
    var status := JObject(map["phase" := JString(phase), "reason" := JString(reason)]);
    Object("Pod", "p", "ns", map[], map[], [OwnerRef("ReplicaSet", "r")], JObject(map["status" := status]))
  }

  function ReplicaSet(): Object {
    Object("ReplicaSet", "r", "ns", map[], map[], [], JOther)
  }

  function TheView(phase: string, reason: string): View {
    var replicaSets, pods := Gvk("apps", "v1", "replicasets"), Gvk("", "v1", "pods");
    View(Cluster([ReplicaSet(), Pod(phase, reason)], map[replicaSets := Resource("ReplicaSet", true), pods := Resource("Pod", true)]),
         Registry(map["ReplicaSet" := replicaSets, "Pod" := pods], map["ReplicaSet" := ["Pod"]]), "ns")
  }

  function PodMeta(phase: string): Meta {
    Meta("p", "ns", phase, "ReplicaSet", "r")
  }

  function TheTree(phase: string): Owned {
    Owned("ReplicaSet", Meta("r", "ns", "", "", ""), [Group("Pod", [Owned("Pod", PodMeta(phase), [])])])
  }

  function TheKey(): Node {
    Node("ReplicaSet", "r", "ns")
  }

  lemma TheMetas(phase: string, reason: string)
    ensures MetaOf(Pod(phase, reason), "ReplicaSet", "r") == PodMeta(phase) && OwnedBy(Pod(phase, reason), "ReplicaSet", "r")
    ensures MetaOf(ReplicaSet(), "", "") == TheTree(phase).meta
  {
    assert "phase"[0] != "reason"[0];
  }

  lemma TheListing(phase: string, reason: string)
    ensures var view := TheView(phase, reason);
            && Listed(view.cluster, GvkOf(view.registry.gvks, "Pod"), "ns") == [Pod(phase, reason)]
            && Listed(view.cluster, GvkOf(view.registry.gvks, "ReplicaSet"), "ns") == [ReplicaSet()]
            && ChildKinds(view.registry, "ReplicaSet") == ["Pod"] && ChildKinds(view.registry, "Pod") == []
  {
    assert "Pod"[0] != "ReplicaSet"[0];
    Rolling.SelectParts([], [ReplicaSet()], [Pod(phase, reason)], "ReplicaSet", "Pod", "ns");
    assert [] + [ReplicaSet()] + [Pod(phase, reason)] == TheView(phase, reason).cluster.objects;
    hide Select;
  }

  lemma ItsTree(phase: string, reason: string)
    ensures IsTreeOf(TheView(phase, reason), "ReplicaSet", ReplicaSet(), TheTree(phase))
  {
    var view, t := TheView(phase, reason), TheTree(phase);
    TheMetas(phase, reason);
    TheListing(phase, reason);
    Rolling.KindsAreTrimmed();
    assert At(view, ReplicaSet()) == view && view.namespace == "ns";
    hide TheView, Pod, Listed, MetaOf, OwnedBy, Text.TrimSpace;
    Misplaced.ChildrenOfOne(Pod(phase, reason), "ReplicaSet", "r");
    assert IsTree(view, t.groups[0].members[0]);
    assert Metas(t.groups[0].members) == [PodMeta(phase)];
    hide Children, MetasOf;
    Rolling.OneGroup(view, t, "Pod");
  }

  lemma OnlyTheReplicaSet(phase: string, reason: string)
    ensures forall kind, o :: IsLive(TheView(phase, reason), kind, o) <==> kind == "ReplicaSet" && o == ReplicaSet()
    ensures Finite(TheView(phase, reason))
  {
    TheListing(phase, reason);
    ItsTree(phase, reason);
    assert TheView(phase, reason).registry.compositions == map["ReplicaSet" := ["Pod"]] && TheView(phase, reason).namespace == "ns";
    hide TheView, Listed, IsTreeOf, TheTree;
  }

  lemma TheCurrent(phase: string, reason: string)
    ensures Finite(TheView(phase, reason)) && IsLive(TheView(phase, reason), "ReplicaSet", ReplicaSet())
    ensures Current(TheView(phase, reason), "ReplicaSet", ReplicaSet()) == Entry("", [TreeNode(2, "Pod", [PodMeta(phase)])])
  {
    OnlyTheReplicaSet(phase, reason);
    ItsTree(phase, reason);
    var view, t := TheView(phase, reason), TheTree(phase);
    var u := TreeOf(view, "ReplicaSet", ReplicaSet());
    TreeIsUnique(At(view, ReplicaSet()), t, u);
    Misplaced.OneLeafFlattened(t.groups[0], 2);
    assert PreorderGroups(t.groups, 1, 2) == [];
    assert PreorderGroups(t.groups, 0, 2) == PreorderGroup(t.groups[0], 2) + PreorderGroups(t.groups, 1, 2);
    assert Preorder(t, 1) == [TreeNode(2, "Pod", [PodMeta(phase)])];
    assert Phase(ReplicaSet().content) == "";
    hide TheView, Preorder, PreorderGroup, PreorderGroups;
  }

  lemma TheLiveKeys(phase: string, reason: string)
    ensures LiveKeys(TheView(phase, reason)) == {TheKey()} && LiveNames(TheView(phase, reason)) == {"r"}
  {
    var view := TheView(phase, reason);
    OnlyTheReplicaSet(phase, reason);
    assert KeyOf("ReplicaSet", ReplicaSet()) == TheKey() && ReplicaSet().name == "r";
    hide TheView, TopLevel, ReplicaSet;
    assert IsLive(view, "ReplicaSet", ReplicaSet());
    forall kind, o | kind in view.registry.compositions && o in TopLevel(view, kind)
      ensures kind == "ReplicaSet" && o == ReplicaSet()
    {
      assert IsLive(view, kind, o);
    }
  }

  function TheItem(phase: string): Compositions {
    Compositions(TheKey(), "", [TreeNode(2, "Pod", [PodMeta(phase)])])
  }

  /** What the store has after a single rebuild. */
  lemma TheStore(phase: string, reason: string, list: seq<Compositions>)
    requires Finite(TheView(phase, reason)) && UniqueKeys(list) && AsMap(list) == Rebuilt(map[], TheView(phase, reason))
    ensures list == [TheItem(phase)]
  {
    var view := TheView(phase, reason);
    OnlyTheReplicaSet(phase, reason);
    TheCurrent(phase, reason);
    TheLiveKeys(phase, reason);
    assert KeyOf("ReplicaSet", ReplicaSet()) == TheKey();
    var live := LiveAt(view, TheKey());
    hide TheView, Current, ReplicaSet, Finite, LiveKeys, LiveNames, IsLive;
    assert Keys(list) == {TheKey()};
    forall i | 0 <= i < |list|
      ensures list[i] == TheItem(phase)
    {
      assert list[i].key in Keys(list);
      MapsTo(list, i);
    }
    assert |list| >= 2 ==> list[0].key != list[1].key;
    assert TheKey() in Keys(list);
  }

  lemma ItemShown(phase: string)
    ensures ShownComposition(TheItem(phase)) == Composition(1, "ReplicaSet", "r", "ns", "", [Composition(2, "Pod", "p", "ns", phase, [])])
  {
    var node := TreeNode(2, "Pod", [PodMeta(phase)]);
    var below := Compose("Pod", PodMeta(phase), 2, [], [node]);
    assert [node][1..] == [] && [PodMeta(phase)][1..] == [] && [] + [node] == [node];
    assert ComposeNodes([], [], [node]) == ([], [node]);
    assert Trimmed([node], 2, "Pod") == [];
    assert below.1 == [node];
    assert below.0.children == [] && below.0.kind == "Pod" && below.0.level == 2;
    assert below.0.name == "p" && below.0.namespace == "ns" && below.0.status == phase;
    var none: seq<TreeNode> := [];
    assert ComposeItems(node, [], [], below.1) == ([], [node]) && none + [node] == [node];
    assert [below.0] + [] == [below.0] && [PodMeta(phase)][0] == PodMeta(phase);
    assert ComposeItems(node, [PodMeta(phase)], [node], none) == ([below.0], [node]);
    assert ComposeNodes([node], [node], []) == ([below.0], [node]);
  }

  /** The Pod is shown below the ReplicaSet with its phase, whatever other strings stand in its status. */
  lemma PhaseIsShown(phase: string, reason: string, list: seq<Compositions>)
    requires Finite(TheView(phase, reason)) && UniqueKeys(list) && AsMap(list) == Rebuilt(map[], TheView(phase, reason))
    ensures ShownCompositions(list, TheKey()) ==
            [Composition(1, "ReplicaSet", "r", "ns", "", [Composition(2, "Pod", "p", "ns", phase, [])])]
    ensures ShownCompositions(list, TheKey().(name := "*")) == ShownCompositions(list, TheKey())
    ensures ShownCompositions(list, TheKey().(kind := "Pod")) == []
  {
    TheStore(phase, reason, list);
    ItemShown(phase);
    assert [TheItem(phase)][..0] == [];
    assert "Pod"[0] != "ReplicaSet"[0];
    hide ShownComposition;
    assert forall key :: ShownCompositions([], key) == [];
  }
}
