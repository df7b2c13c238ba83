/** A resource and its owner of the same kind that no edge list names together. */
module Untold {
  import opened Connections
  import opened FieldSearch
  import opened Cluster
  import opened Relationships
  import opened Graph
  import opened Progress
  import opened Reachability
  import opened Runs
  import Text

  const WIDGETS := Gvk("", "v1", "widgets")

  function TheParent(): Object {
    Object("Widget", "parent", "ns", map[], map[], [], JOther)
  }

  function TheChild(): Object {
    Object("Widget", "child", "ns", map[], map[], [OwnerRef("Widget", "parent")], JOther)
  }

  /** Two Widgets, one of which owns the other; nothing is declared about Widgets. */
  function TheWorld(): World {
    var services, pods := Gvk("", "v1", "services"), Gvk("", "v1", "pods");
    World(Cluster([TheParent(), TheChild()],
                  map[WIDGETS := Resource("Widget", true), services := Resource("Service", true), pods := Resource("Pod", true)]),
          map["Widget" := WIDGETS, "Service" := services, "Pod" := pods],
          map["Service" := [Relationship(Label, "INSTANCE.spec.selector", "", ["Pod"])]],
          {}, [], "", Node("Widget", "child", "ns"))
  }

  function TheEnv(): Env {
    Env(TheWorld(), Node("Widget", "child", "ns"), {"ns"})
  }

  lemma KindsDiffer()
    ensures "Widget" != "Service" && "Widget" != "Pod" && "Service" != "Pod" && NAMESPACE != "Widget" && NAMESPACE != "Pod" && NAMESPACE != "Service"
    ensures "parent" != "child" && "child" != ANY && "parent" != ANY
    ensures WIDGETS != Gvk("", "v1", "services") && WIDGETS != Gvk("", "v1", "pods") && Gvk("", "v1", "services") != Gvk("", "v1", "pods")
  {
    assert "Widget"[0] == 'W' && "Service"[0] == 'S' && "Pod"[0] == 'P' && NAMESPACE[0] == 'N';
    assert "parent"[0] == 'p' && "child"[0] == 'c' && ANY[0] == '*';
    assert "widgets"[0] == 'w' && "services"[0] == 's' && "pods"[0] == 'p';
  }

  lemma WellFormedHere()
    ensures WellFormed(TheWorld().cluster)
  {
    KindsDiffer();
  }

  lemma WorldIsOk()
    ensures WorldOk(TheWorld())
  {
    WellFormedHere();
    MentionedIsServed();
    NoneOwned();
    assert TheWorld().compositions == [];
    hide WellFormed, Mentioned;
  }

  lemma MentionedIsServed()
    ensures forall kind :: Mentioned(TheWorld(), kind) ==> kind != "" && GvkOf(TheWorld(), kind) in TheWorld().cluster.served
  {
    KindsDiffer();
  }

  lemma NoneOwned()
    ensures forall o :: o in TheWorld().cluster.objects ==> Named(o.name) && OwnerOf(o).name != ANY && EnvTyped(o.content)
  {
    KindsDiffer();
  }

  lemma NoKindOfNamespaces()
    ensures NAMESPACE !in Kinds(TheWorld())
  {
    KindsDiffer();
  }

  lemma EnvIsOk()
    ensures EnvOk(TheEnv()) && Constant(TheEnv())
  {
    var env := TheEnv();
    WorldIsOk();
    NoKindOfNamespaces();
    KindsDiffer();
    assert env.world == TheWorld();
    assert TheWorld().original == Node("Widget", "child", "ns") == StartOf(TheWorld());
    hide TheWorld, WorldOk, Edge, Kinds;
    forall a: Node, b: Node, ty, targetNamespace | Edge(env.world, a, b, ty, targetNamespace, false)
      ensures b.kind != NAMESPACE
    {
      EdgeTargets(env.world, a, b, ty, targetNamespace, false);
    }
  }

  lemma NothingRelated(a: Node, b: Node, ty: RelType, sure: bool)
    ensures !Down(TheWorld(), a, b, ty, a.namespace, sure) && !Up(TheWorld(), a, b, ty, a.namespace, sure)
  {
    var w := TheWorld();
    NoneListed(a.namespace);
    hide Objects, Labelled, Selects, LabelsOf, SelectorLabels;
  }

  lemma NoneListed(namespace: string)
    ensures Objects(TheWorld(), "Pod", namespace) == [] && Objects(TheWorld(), "Service", namespace) == []
  {
    KindsDiffer();
    var objects := TheWorld().cluster.objects;
    assert forall o :: o in objects ==> o.kind == "Widget";
    NothingSelected(objects, "Pod", namespace);
    NothingSelected(objects, "Pod", "");
    NothingSelected(objects, "Service", namespace);
    NothingSelected(objects, "Service", "");
    hide Select;
  }

  lemma {:induction false} NothingSelected(objects: seq<Object>, kind: string, namespace: string)
    requires forall o :: o in objects ==> o.kind != kind
    ensures Select(objects, kind, namespace) == []
  {
    if objects != [] {
      NothingSelected(objects[1..], kind, namespace);
    }
  }

  lemma ChildIsGot()
    ensures Got(TheWorld(), "Widget", "child", "ns") == Some(TheChild())
  {
    KindsDiffer();
  }

  lemma NothingIgnored(x: Node)
    ensures !Ignored(TheWorld(), x)
  {
    assert TheWorld().relsToIgnore == "";
    assert Text.Split("", ',') == [""] && Text.Split("", ':') == [""];
    hide TheWorld;
  }

  /** Only the child finds an owner, and that without its peer. */
  lemma NoTies(u: Node, v: Node, ty: RelType)
    ensures !Tie(TheWorld(), TheEnv().start, u, v, ty)
  {
    NothingRelated(u, v, ty, false);
    OwnersAreWidgets(u, v);
    assert ChildKinds(TheWorld()) == {} && TheWorld().crdKinds == {};
    hide Down, Up, Owner, Reachable, TheWorld, ChildKinds, Ignored;
  }

  lemma OwnersAreWidgets(u: Node, v: Node)
    ensures Owner(TheWorld(), u, v) ==> u.kind == v.kind == "Widget"
  {
    KindsDiffer();
  }

  /** Asked about the child, every run visits its owner, and its edge list says nothing of the two. */
  lemma OwnerIsUntold(s: State)
    requires Finished(TheEnv(), s)
    ensures EnvOk(TheEnv()) && Constant(TheEnv())
    ensures Owner(TheWorld(), Node("Widget", "child", "ns"), Node("Widget", "parent", "ns"))
    ensures Node("Widget", "parent", "ns") in Nodes(s.visited)
    ensures !NamesTold(s.total, "child", "parent")
  {
    var w, child, owner := TheWorld(), Node("Widget", "child", "ns"), Node("Widget", "parent", "ns");
    EnvIsOk();
    ChildIsGot();
    KindsDiffer();
    assert TheEnv().world == w && TheEnv().start == child;
    assert Owner(w, child, owner);
    NothingIgnored(child);
    NothingIgnored(owner);
    hide TheWorld, TheEnv, Finished, EnvOk, Ignored, NamesTold, Owner, Walk, Constant;
    assert Edge(w, child, owner, OwnerReference, "ns", true);
    assert Joined(w, true, child, owner);
    FirstStep(w, child, owner);
    ReachableIsVisited(TheEnv(), s, 1, owner);
    forall u, v, ty
      ensures !Tie(w, child, u, v, ty)
    {
      NoTies(u, v, ty);
    }
    if NamesTold(s.total, "child", "parent") {
      EntryIsTie(TheEnv(), s, "child", "parent");
    }
  }

  lemma FirstStep(w: World, a: Node, b: Node)
    requires Joined(w, true, a, b) && !Ignored(w, a)
    ensures Walk(w, true, 1, a, b)
  {
    assert Walk(w, true, 0, a, a);
  }
}
