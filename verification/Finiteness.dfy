/** When buildCompositions returns: an object has a finite ownership tree exactly when no cycle lies below it. */
module Finiteness {
  import opened Cluster
  import opened CompositionTree
  import opened FieldSearch
  import opened Ownership
  import Text

  /** A chain of owners leads from the object into a cycle. */
  ghost predicate Cyclic(view: View, kind: string, name: string) {
    exists n: nat, k, m, period: nat ::
      Chain(view, n, kind, name, k, m) && period > 0 && Chain(view, period, k, m, k, m)
  }

  ghost predicate Descends(view: View, kind: string, name: string, childKind: string, childName: string) {
    exists n: nat :: n > 0 && Chain(view, n, kind, name, childKind, childName)
  }

  /** The finitely many pairs of a component kind and an object name. */
  ghost function Candidates(view: View): set<(string, string)> {
    set kind, listed, o | kind in view.registry.compositions && listed in view.registry.compositions[kind] && o in view.cluster.objects ::
      (Text.TrimSpace(listed), o.name)
  }

  ghost function Descendants(view: View, kind: string, name: string): set<(string, string)> {
    set p | p in Candidates(view) && Descends(view, kind, name, p.0, p.1)
  }

  lemma ChildIsCandidate(view: View, kind: string, name: string, childKind: string, childName: string)
    requires IsChild(view, kind, name, childKind, childName)
    ensures (childKind, childName) in Candidates(view)
  {
    var listed :| listed in ChildKinds(view.registry, kind) && Text.TrimSpace(listed) == childKind;
    var o :| o in Listed(view.cluster, GvkOf(view.registry.gvks, childKind), view.namespace) && o.name == childName;
    assert kind in view.registry.compositions && o in view.cluster.objects;
  }

  /** Below an acyclic object its children are acyclic, and have fewer descendants: they are not among their own. */
  lemma FewerDescendants(view: View, kind: string, name: string, childKind: string, childName: string)
    requires IsChild(view, kind, name, childKind, childName) && !Cyclic(view, kind, name)
    ensures !Cyclic(view, childKind, childName)
    ensures Descendants(view, childKind, childName) < Descendants(view, kind, name)
  {
    hide IsChild, Candidates;
    ChildIsCandidate(view, kind, name, childKind, childName);
    assert Chain(view, 0, childKind, childName, childKind, childName);
    assert Chain(view, 1, kind, name, childKind, childName);
    forall n: nat, k, m | Chain(view, n, childKind, childName, k, m)
      ensures Chain(view, n + 1, kind, name, k, m)
    {
    }
    assert (childKind, childName) in Descendants(view, kind, name);
    assert !Descends(view, childKind, childName, childKind, childName);
    assert (childKind, childName) !in Descendants(view, childKind, childName);
  }

  lemma {:induction false} AcyclicHasTree(view: View, kind: string, meta: Meta) returns (t: Owned)
    requires !Cyclic(view, kind, meta.name)
    ensures IsTree(view, t) && t.kind == kind && t.meta == meta
    decreases Descendants(view, kind, meta.name), 1
  {
    hide IsGroup, IsChild, Cyclic, Descendants;
    var kinds := ChildKinds(view.registry, kind);
    var groups: seq<Group> := [];
    for i := 0 to |kinds|
      invariant |groups| == i
      invariant forall j :: 0 <= j < i ==> IsGroup(view, kind, meta.name, Text.TrimSpace(kinds[j]), groups[j])
    {
      var g := AcyclicHasGroup(view, kind, meta.name, kinds[i]);
      groups := groups + [g];
    }
    t := Owned(kind, meta, groups);
  }

  lemma {:induction false} AcyclicHasGroup(view: View, kind: string, name: string, listed: string) returns (g: Group)
    requires !Cyclic(view, kind, name)
    requires listed in ChildKinds(view.registry, kind)
    ensures IsGroup(view, kind, name, Text.TrimSpace(listed), g)
    decreases Descendants(view, kind, name), 0
  {
    hide IsTree, IsChild, Cyclic, Descendants, ChildrenOf;
    var childKind := Text.TrimSpace(listed);
    var metas := ChildrenOf(view, kind, name, childKind);
    var members: seq<Owned> := [];
    for i := 0 to |metas|
      invariant |members| == i
      invariant forall j :: 0 <= j < i ==> members[j].kind == childKind && members[j].meta == metas[j] && IsTree(view, members[j])
    {
      assert HasName(metas, metas[i].name);
      ChildrenAreChildren(view, kind, name, listed, metas[i].name);
      FewerDescendants(view, kind, name, childKind, metas[i].name);
      var t := AcyclicHasTree(view, childKind, metas[i]);
      members := members + [t];
    }
    g := Group(childKind, members);
  }

  /** buildCompositions returns for an object if and only if no chain of owners leads from it into a cycle. */
  lemma TreeIffAcyclic(view: View, kind: string, meta: Meta)
    ensures (exists t: Owned :: IsTree(view, t) && t.kind == kind && t.meta == meta) <==> !Cyclic(view, kind, meta.name)
  {
    hide IsTree, Chain;
    if Cyclic(view, kind, meta.name) {
      var n: nat, k, m, period: nat :| Chain(view, n, kind, meta.name, k, m) && period > 0 && Chain(view, period, k, m, k, m);
      forall t: Owned | t.kind == kind && t.meta == meta
        ensures !IsTree(view, t)
      {
        CycleHasNoTree(view, t, n, k, m, period);
      }
    } else {
      var t := AcyclicHasTree(view, kind, meta);
    }
  }

  // ---------------------------------------------------------------- a cycle

  /** A cluster with one object, which names itself as its owner, and a kind that is its own component. */
  function SelfOwned(namespace: string): View {
    var gvk := Gvk("g", "v", "tasks");
    var o := Object("Task", "t", namespace, map[], map[], [OwnerRef("Task", "t")], JOther);
    View(Cluster([o], map[gvk := Resource("Task", true)]), Registry(map["Task" := gvk], map["Task" := ["Task"]]), namespace)
  }

  /** There buildCompositions does not return. */
  lemma SelfOwnedIsCyclic(namespace: string)
    requires namespace != ""
    ensures WellFormed(SelfOwned(namespace).cluster) && Cyclic(SelfOwned(namespace), "Task", "t")
  {
    var view := SelfOwned(namespace);
    Text.TrimPadded("", "Task", "");
    assert "" + "Task" + "" == "Task";
    assert "Task" in ChildKinds(view.registry, "Task");
    var o := view.cluster.objects[0];
    assert o in Listed(view.cluster, GvkOf(view.registry.gvks, "Task"), namespace);
    assert OwnedBy(o, "Task", "t");
    assert IsChild(view, "Task", "t", "Task", "t");
    assert Chain(view, 0, "Task", "t", "Task", "t");
    assert Chain(view, 1, "Task", "t", "Task", "t");
  }
}
