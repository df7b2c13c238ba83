/** An ordinary cluster that meets all that the theorems about runs assume. */
module Example {
  import opened Connections
  import opened FieldSearch
  import opened FieldPaths
  import opened Cluster
  import opened Relationships
  import opened CompositionTree
  import opened Graph
  import opened Matching
  import opened Progress
  import opened Readings
  import opened Runs
  import opened Symmetry
  import CompositionStore

  /** A custom resource, which owns a Service. */
  function Website(): Object {
    Object("Website", "site", "ns", map[], map[], [], JOther)
  }

  /** The Service, whose selector selects the Pod. */
  function Service(): Object {
    var spec := JObject(map["selector" := JObject(map["app" := JString("nginx")])]);
    Object("Service", "web", "ns", map[], map[], [OwnerRef("Website", "site")], JObject(map["spec" := spec]))
  }

  /** A container that has another name than the Pod, and an environment variable with the name of the Service. */
  function Container(): Json {
    var envVar := JObject(map["name" := JString("HOST"), "value" := JString("web")]);
    JObject(map["name" := JString("nginx"), "env" := JArray([envVar])])
  }

  /** A Pod of a ReplicaSet, with the labels of its template. */
  function Pod(): Object {
    Object("Pod", "p", "ns", map["app" := "nginx", "pod-template-hash" := "abc"], map[], [OwnerRef("ReplicaSet", "r")],
           JObject(map["metadata" := JObject(map["name" := JString("p")]), "spec" := JObject(map["containers" := JArray([Container()])])]))
  }

  function ReplicaSet(): Object {
    Object("ReplicaSet", "r", "ns", map[], map[], [], JOther)
  }

  /** What an Ingress says that is named `name` and leads to the Service `service`. */
  function IngressContent(name: string, service: string): Json {
    var backend := JObject(map["service" := JObject(map["name" := JString(service)])]);
    JObject(map["metadata" := JObject(map["name" := JString(name)]), "spec" := JObject(map["defaultBackend" := backend])])
  }

  /** An Ingress with the name of its Service. */
  function Ingress(): Object {
    Object("Ingress", "web", "ns", map[], map[], [], IngressContent("web", "web"))
  }

  /** In another namespace, a Service and an Ingress with a name of its own. */
  function OtherService(): Object {
    Object("Service", "web", "other", map[], map[], [], JOther)
  }

  function OtherIngress(): Object {
    Object("Ingress", "ing", "other", map[], map[], [], IngressContent("ing", "web"))
  }

  /** What is stored for the custom resource. */
  function Stored(): CompositionStore.Compositions {
    CompositionStore.Compositions(Node("Website", "site", "ns"), "", [TreeNode(2, "Service", [Meta("web", "ns", "", "Website", "site")])])
  }

  const WEBSITES := Gvk("example.com", "v1", "websites")
  const SERVICES := Gvk("", "v1", "services")
  const PODS := Gvk("", "v1", "pods")
  const REPLICASETS := Gvk("apps", "v1", "replicasets")
  const INGRESSES := Gvk("networking.k8s.io", "v1", "ingresses")

  function TheCluster(): Cluster {
    Cluster([Website(), Service(), Pod(), ReplicaSet(), Ingress(), OtherService(), OtherIngress()],
            map[WEBSITES := Resource("Website", true), SERVICES := Resource("Service", true), PODS := Resource("Pod", true),
                REPLICASETS := Resource("ReplicaSet", true), INGRESSES := Resource("Ingress", true)])
  }

  /** The relationships between Services and Pods, both ways, ReplicaSets and Pods, Ingresses and Services, and Websites and
      Services. */
  function TheRelationships(): map<string, seq<Relationship>> {
    map["Service" := [Relationship(Label, "INSTANCE.spec.selector", "", ["Pod"])],
        "ReplicaSet" := [Relationship(RelType.OwnerReference, "", "", ["Pod"])],
        "Pod" := [Relationship(SpecProperty, "env", "name", ["Service"])],
        "Ingress" := [Relationship(SpecProperty, "name", "name", ["Service"])],
        "Website" := [Relationship(RelType.OwnerReference, "", "", ["Service"])]]
  }

  function TheWorld(): World {
    World(TheCluster(),
          map["Website" := WEBSITES, "Service" := SERVICES, "Pod" := PODS, "ReplicaSet" := REPLICASETS, "Ingress" := INGRESSES],
          TheRelationships(), {"Website"}, [Stored()], "", Node("Service", "web", "ns"))
  }

  lemma KindsDiffer()
    ensures "Service" != "Pod" && "Service" != "ReplicaSet" && "Service" != "Ingress" && "Pod" != "ReplicaSet" && "Pod" != "Ingress"
    ensures "Website" != "Service" && "Website" != "Pod" && "Website" != "ReplicaSet" && "Website" != "Ingress" && "ReplicaSet" != "Ingress"
    ensures NAMESPACE !in {"Website", "Service", "Pod", "ReplicaSet", "Ingress"}
    ensures "ns" != "other" && "web" != "ing"
    ensures SERVICES != PODS && SERVICES != REPLICASETS && SERVICES != INGRESSES && PODS != REPLICASETS && PODS != INGRESSES
    ensures WEBSITES != SERVICES && WEBSITES != PODS && WEBSITES != REPLICASETS && WEBSITES != INGRESSES && REPLICASETS != INGRESSES
  {
    assert "Website"[0] == 'W' && "Service"[0] == 'S' && "Pod"[0] == 'P' && "ReplicaSet"[0] == 'R' && "Ingress"[0] == 'I' && NAMESPACE[0] == 'N';
    assert "web"[0] == 'w' && "ing"[0] == 'i' && "ns"[0] == 'n' && "other"[0] == 'o';
    assert "websites"[0] == 'w' && "services"[0] == 's' && "pods"[0] == 'p' && "replicasets"[0] == 'r' && "ingresses"[0] == 'i';
  }

  lemma NamesDiffer()
    ensures "web" != "nginx" && "web" != "abc" && "web" != "p" && "p" != "r" && "site" != "r" && "site" != "p" && "site" != "web"
    ensures Named("web") && Named("site") && Named("p") && Named("r") && Named("ing")
  {
    assert "web"[0] == 'w' && "nginx"[0] == 'n' && "abc"[0] == 'a' && "p"[0] == 'p' && "r"[0] == 'r' && "site"[0] == 's' && "ing"[0] == 'i';
    assert ANY[0] == '*';
  }

  /** What each kind is served as. */
  lemma TheKinds(kind: string)
    ensures GvkOf(TheWorld(), kind) in TheCluster().served <==> kind in {"Website", "Service", "Pod", "ReplicaSet", "Ingress"}
    ensures GvkOf(TheWorld(), kind) in TheCluster().served ==> TheCluster().served[GvkOf(TheWorld(), kind)] == Resource(kind, true)
    ensures GvkOf(TheWorld(), "Website") == WEBSITES && GvkOf(TheWorld(), "Service") == SERVICES && GvkOf(TheWorld(), "Pod") == PODS
    ensures GvkOf(TheWorld(), "ReplicaSet") == REPLICASETS && GvkOf(TheWorld(), "Ingress") == INGRESSES
  {
    KindsDiffer();
    hide Website, Service, Pod, ReplicaSet, Ingress, OtherService, OtherIngress, Stored, TheRelationships;
    assert Gvk("", "", "") !in TheCluster().served;
  }

  /** What is got for a kind is of that kind. */
  lemma GotIsOfKind(kind: string, name: string, namespace: string)
    ensures var o := Got(TheWorld(), kind, name, namespace);
            o.Some? ==> o.value in TheCluster().objects && o.value.kind == kind && o.value.name == name && Around(o.value, namespace)
  {
    TheKinds(kind);
    hide TheCluster, GvkOf;
    assert TheWorld().cluster == TheCluster();
    hide TheWorld;
  }

  lemma Relations()
    ensures forall kind, rel :: rel in RelsOf(TheWorld(), kind) ==>
              || (kind == "Service" && rel == Relationship(Label, "INSTANCE.spec.selector", "", ["Pod"]))
              || (kind == "ReplicaSet" && rel == Relationship(RelType.OwnerReference, "", "", ["Pod"]))
              || (kind == "Pod" && rel == Relationship(SpecProperty, "env", "name", ["Service"]))
              || (kind == "Ingress" && rel == Relationship(SpecProperty, "name", "name", ["Service"]))
              || (kind == "Website" && rel == Relationship(RelType.OwnerReference, "", "", ["Service"]))
    ensures TheWorld().relationships.Keys == {"Service", "ReplicaSet", "Pod", "Ingress", "Website"}
    ensures forall kind, rel :: kind in TheWorld().relationships && rel in TheWorld().relationships[kind] ==> rel in RelsOf(TheWorld(), kind)
  {
    KindsDiffer();
    hide TheCluster, Stored;
  }

  lemma TheChildKinds()
    ensures ChildKinds(TheWorld()) == {"Pod", "Service"}
  {
    KindsDiffer();
    assert TheWorld().relationships == TheRelationships();
    assert Relationship(RelType.OwnerReference, "", "", ["Pod"]) in TheRelationships()["ReplicaSet"] && "Pod" in ["Pod"];
    assert Relationship(RelType.OwnerReference, "", "", ["Service"]) in TheRelationships()["Website"] && "Service" in ["Service"];
    Relations();
    hide TheWorld, TheRelationships, RelsOf;
  }

  lemma TheObjects()
    ensures TheCluster().objects == [Website(), Service(), Pod(), ReplicaSet(), Ingress(), OtherService(), OtherIngress()]
    ensures OwnerOf(Website()) == OwnerOf(ReplicaSet()) == OwnerOf(Ingress()) == OwnerOf(OtherService()) == OwnerOf(OtherIngress()) == OwnerRef("", "")
    ensures OwnerOf(Service()) == OwnerRef("Website", "site") && OwnerOf(Pod()) == OwnerRef("ReplicaSet", "r")
    ensures Identifies(Website(), "Website", "site", "ns") && Identifies(Service(), "Service", "web", "ns") && Identifies(Pod(), "Pod", "p", "ns")
    ensures Identifies(ReplicaSet(), "ReplicaSet", "r", "ns") && Identifies(Ingress(), "Ingress", "web", "ns")
    ensures Identifies(OtherService(), "Service", "web", "other") && Identifies(OtherIngress(), "Ingress", "ing", "other")
  {
  }

  lemma ObjectsByKind(o: Object)
    requires o in TheCluster().objects
    ensures o.kind == "Pod" <==> o == Pod()
    ensures o.kind == "Service" && o.namespace == "ns" <==> o == Service()
    ensures o.kind == "Ingress" && o.namespace == "ns" <==> o == Ingress()
  {
    TheObjects();
    KindsDiffer();
    hide TheCluster, OwnerOf, Website, Service, Pod, ReplicaSet, Ingress, OtherService, OtherIngress;
  }

  lemma OwnersByObject(o: Object)
    requires o in TheCluster().objects
    ensures OwnerOf(o) == OwnerRef("", "") || (o == Service() && OwnerOf(o) == OwnerRef("Website", "site"))
            || (o == Pod() && OwnerOf(o) == OwnerRef("ReplicaSet", "r"))
  {
    TheObjects();
    hide TheCluster, OwnerOf, Website, Service, Pod, ReplicaSet, Ingress, OtherService, OtherIngress;
  }

  lemma AreObjects()
    ensures Service() in TheCluster().objects && Pod() in TheCluster().objects && Ingress() in TheCluster().objects
  {
    TheObjects();
    hide TheCluster, OwnerOf, Identifies, Website, Service, Pod, ReplicaSet, Ingress, OtherService, OtherIngress;
  }

  // ---------------------------------------------------------------- the premises, one by one

  lemma ObjectsDiffer(i: nat, j: nat)
    requires i < j < |TheCluster().objects|
    ensures var o := TheCluster().objects[j]; !Identifies(TheCluster().objects[i], o.kind, o.name, o.namespace)
  {
    TheObjects();
    KindsDiffer();
    hide Website, Service, Pod, ReplicaSet, Ingress, OtherService, OtherIngress, TheCluster;
  }

  lemma AllAreNamespaced()
    ensures forall o :: o in TheCluster().objects ==> o.namespace != ""
    ensures forall gvk :: gvk in TheCluster().served ==> TheCluster().served[gvk].namespaced
  {
    TheObjects();
    hide Website, Service, Pod, ReplicaSet, Ingress, OtherService, OtherIngress;
  }

  lemma ClusterIsWellFormed()
    ensures WellFormed(TheCluster())
  {
    AllAreNamespaced();
    hide TheCluster, Identifies;
    forall i, j | 0 <= i < j < |TheCluster().objects|
      ensures var o := TheCluster().objects[j]; !Identifies(TheCluster().objects[i], o.kind, o.name, o.namespace)
    {
      ObjectsDiffer(i, j);
    }
  }

  lemma ContentsAreTyped()
    ensures forall o :: o in TheCluster().objects ==> EnvTyped(o.content)
  {
    NoContainers();
    TheContainers();
    TheObjects();
    hide Containers, Service, Pod, ReplicaSet, Ingress, OtherService, OtherIngress, Website;
  }

  lemma TheContainers()
    ensures Containers(Pod().content) == [Container()]
    ensures forall envVar :: envVar in Items(Field(Container(), "env")) ==> EnvVarTyped(envVar)
  {
    assert "env"[0] != "name"[0] && "metadata"[0] != "spec"[0] && "value"[0] != "name"[0];
  }

  lemma NoContainers()
    ensures Containers(Service().content) == [] && Containers(Ingress().content) == [] && Containers(OtherIngress().content) == []
    ensures Containers(JOther) == []
    ensures Website().content == ReplicaSet().content == OtherService().content == JOther
  {
    assert "selector"[0] != "containers"[0] && "defaultBackend"[0] != "containers"[0] && "metadata"[0] != "spec"[0];
  }

  lemma ResourcesAreOk()
    ensures ResourcesOk(TheWorld())
  {
    ClusterIsWellFormed();
    ContentsAreTyped();
    NamesAreProper();
    MentionedIsServed();
    SingleTargets();
    assert TheWorld().cluster == TheCluster();
    hide TheWorld, TheCluster, EnvTyped, WellFormed, Mentioned, SingleTarget, GvkOf, OwnerOf, Named;
  }

  lemma SingleTargets()
    ensures forall kind, rel :: kind in TheWorld().relationships && rel in TheWorld().relationships[kind] ==> SingleTarget(rel)
  {
    Relations();
    hide TheWorld, RelsOf;
  }

  lemma NamesAreProper()
    ensures forall o :: o in TheCluster().objects ==> Named(o.name) && OwnerOf(o).name != ANY
  {
    TheObjects();
    NamesDiffer();
    hide Website, Service, Pod, ReplicaSet, Ingress, OtherService, OtherIngress, OwnerOf;
  }

  lemma MentionedIsServed()
    ensures forall kind :: Mentioned(TheWorld(), kind) ==> kind != "" && GvkOf(TheWorld(), kind) in TheCluster().served
  {
    Relations();
    KindsDiffer();
    hide TheWorld, TheCluster, RelsOf, GvkOf;
    forall kind | Mentioned(TheWorld(), kind)
      ensures kind != "" && GvkOf(TheWorld(), kind) in TheCluster().served
    {
      TheKinds(kind);
    }
  }

  lemma TheComponents()
    ensures TheWorld().compositions == [Stored()] && Stored().key == Node("Website", "site", "ns")
    ensures ShownChildren(Stored()) == [Composition(2, "Service", "web", "ns", "", [])]
  {
  }

  lemma WorldIsOk()
    ensures WorldOk(TheWorld())
  {
    ResourcesAreOk();
    TheComponents();
    NamesDiffer();
    hide TheWorld, ResourcesOk, Stored, ShownChildren;
  }

  // ---------------------------------------------------------------- fields

  /** Under `name` an Ingress has its name, and the name of its Service. */
  lemma TheNames(name: string, service: string, value: string)
    ensures Occurs(IngressContent(name, service), "name", value) <==> value == name || value == service
  {
    assert "metadata"[0] != "spec"[0] && "service"[0] != "name"[0] && "defaultBackend"[0] != "name"[0];
    var metadata := JObject(map["name" := JString(name)]);
    var backend := JObject(map["service" := JObject(map["name" := JString(service)])]);
    OneField("name", JString(name), "name", value);
    OneField("name", JString(service), "name", value);
    OneField("service", JObject(map["name" := JString(service)]), "name", value);
    OneField("defaultBackend", backend, "name", value);
    var fields := IngressContent(name, service).fields;
    assert fields.Keys == {"metadata", "spec"};
    assert OccursUnder("metadata", fields["metadata"], "name", value) <==> value == name;
    assert OccursUnder("spec", fields["spec"], "name", value) <==> value == service;
    hide IngressContent;
  }

  /** Searches from the namespace meet unambiguous fields only, whatever is elsewhere. */
  lemma FieldsAreUnambiguous()
    ensures Unambiguous(TheWorld(), "ns")
  {
    Relations();
    var w := TheWorld();
    hide TheWorld, RelsOf, Occurs, OfKind, Around;
    forall kind, rel, o, targetKind, target, other |
      kind in w.relationships && rel in w.relationships[kind] && SearchesField(rel) && targetKind in rel.targetKinds
      && OfKind(w, o, kind) && Around(o, "ns")
      && OfKind(w, target, targetKind) && (targetKind == NAMESPACE || Around(target, "ns"))
      && Occurs(o.content, rel.lhs, target.name) && Occurs(o.content, rel.lhs, other)
      ensures other == target.name
    {
      assert rel in RelsOf(w, kind);
      OnlyIngress(o);
      TheNames("web", "web", target.name);
      TheNames("web", "web", other);
    }
  }

  lemma OnlyIngress(o: Object)
    ensures OfKind(TheWorld(), o, "Ingress") && Around(o, "ns") ==> o.content == IngressContent("web", "web")
  {
    TheObjects();
    TheKinds("Ingress");
    KindsDiffer();
    assert TheWorld().cluster == TheCluster();
    assert Ingress().content == IngressContent("web", "web");
    hide TheWorld, TheCluster, GvkOf, IngressContent, Website, Service, Pod, ReplicaSet, Ingress, OtherService, OtherIngress;
  }

  lemma ElsewhereAreOfKind()
    ensures OfKind(TheWorld(), OtherIngress(), "Ingress") && OfKind(TheWorld(), OtherService(), "Service")
    ensures Around(OtherIngress(), "other") && Around(OtherService(), "other") && OtherService().name == "web"
    ensures OtherIngress().content == IngressContent("ing", "web")
    ensures TheWorld().relationships["Ingress"] == [Relationship(SpecProperty, "name", "name", ["Service"])]
  {
    TheObjects();
    TheKinds("Ingress");
    TheKinds("Service");
    assert TheWorld().cluster == TheCluster() && TheWorld().relationships == TheRelationships();
    assert OtherIngress().content == IngressContent("ing", "web");
    hide TheWorld, TheCluster, GvkOf, IngressContent, Website, Service, Pod, ReplicaSet, Ingress, OtherService, OtherIngress;
  }

  /** In the other namespace they do not. */
  lemma FieldsElsewhereAreNot()
    ensures !Unambiguous(TheWorld(), "other")
  {
    var w, rel := TheWorld(), Relationship(SpecProperty, "name", "name", ["Service"]);
    KindsDiffer();
    Relations();
    ElsewhereAreOfKind();
    TheNames("ing", "web", "web");
    TheNames("ing", "web", "ing");
    hide TheWorld, RelsOf, Occurs, IngressContent, OfKind, Around, OtherIngress, OtherService;
    assert rel in w.relationships["Ingress"] && SearchesField(rel) && "Service" in rel.targetKinds;
    assert Occurs(OtherIngress().content, rel.lhs, OtherService().name) && Occurs(OtherIngress().content, rel.lhs, "ing");
  }

  // ---------------------------------------------------------------- owners, components and labels

  lemma OwnersAreKnown()
    ensures OwnersKnown(TheWorld(), "ns")
  {
    TheChildKinds();
    forall a: Node, b: Node | Owner(TheWorld(), a, b)
      ensures a.kind == "Pod" || a.kind == "Service"
    {
      OwnedKinds(a, b);
    }
    hide TheWorld, Owner, ChildKinds, Proper;
  }

  lemma OwnedKinds(a: Node, b: Node)
    requires Owner(TheWorld(), a, b)
    ensures a.kind == "Pod" || a.kind == "Service"
  {
    GotIsOfKind(a.kind, a.name, a.namespace);
    TheObjects();
    hide TheWorld, TheCluster, Got, OwnerOf, Website, Service, Pod, ReplicaSet, Ingress, OtherService, OtherIngress;
  }

  lemma GotHere(o: Object)
    requires o in TheCluster().objects && o.kind in {"Website", "Service", "Pod", "ReplicaSet", "Ingress"}
    ensures Get(TheCluster(), GvkOf(TheWorld(), o.kind), o.name, o.namespace) == Got(TheWorld(), o.kind, o.name, o.namespace) == Some(o)
  {
    ClusterIsWellFormed();
    TheKinds(o.kind);
    FoundIsUnique(TheCluster(), o);
    assert TheWorld().cluster == TheCluster();
    hide TheWorld, TheCluster, WellFormed, GvkOf;
  }

  /** The Service has its custom resource as its owner, and the Pod its ReplicaSet. */
  lemma TheOwners()
    ensures Owner(TheWorld(), Node("Service", "web", "ns"), Node("Website", "site", "ns"))
    ensures Owner(TheWorld(), Node("Pod", "p", "ns"), Node("ReplicaSet", "r", "ns"))
  {
    TheObjects();
    hide TheWorld, TheCluster, Got, OwnerOf, Website, Service, Pod, ReplicaSet, Ingress, OtherService, OtherIngress;
    GotHere(Service());
    GotHere(Pod());
  }

  lemma ComponentsAreOwned()
    ensures ComponentsOwned(TheWorld(), "ns") && Component(TheWorld(), Node("Website", "site", "ns"), Node("Service", "web", "ns"))
  {
    TheOwners();
    hide TheWorld, Owner, Proper, Component;
    forall a: Node, b: Node
      ensures Component(TheWorld(), a, b) <==> a == Node("Website", "site", "ns") && b == Node("Service", "web", "ns")
    {
      OneComponent(a, b);
    }
  }

  lemma OneComponent(a: Node, b: Node)
    ensures Component(TheWorld(), a, b) <==> a == Node("Website", "site", "ns") && b == Node("Service", "web", "ns")
  {
    TheComponents();
    assert TheWorld().crdKinds == {"Website"};
    hide TheWorld, Stored, ShownChildren;
    assert Stored() in TheWorld().compositions;
    assert Composition(2, "Service", "web", "ns", "", []) in ShownChildren(Stored());
  }

  /** Only one Service is present in the namespace, and no label bears its name. */
  lemma OnlyOneService(name: string)
    ensures Present(TheWorld(), Node("Service", name, "ns")) ==> name == "web"
  {
    TheComponents();
    NobodyOwnsServices();
    GotIsOfKind("Service", name, "ns");
    assert TheWorld().cluster == TheCluster();
    var o := Got(TheWorld(), "Service", name, "ns");
    if o.Some? {
      ObjectsByKind(o.value);
      AllAreNamespaced();
      assert Service().name == "web";
    }
    hide TheWorld, TheCluster, Got, OwnerOf, Stored, ShownChildren, Service;
  }

  lemma NobodyOwnsServices()
    ensures forall o :: o in TheCluster().objects ==> OwnerOf(o).kind != "Service"
  {
    KindsDiffer();
    hide TheCluster, OwnerOf, Service, Pod;
    forall o | o in TheCluster().objects
      ensures OwnerOf(o).kind != "Service"
    {
      OwnersByObject(o);
    }
  }

  lemma TheLabels(name: string)
    ensures NamedInLabels(name, Pod().labels) ==> name == "nginx" || name == "abc"
  {
  }

  lemma PodsAreListed(o: Object)
    ensures o in Objects(TheWorld(), "Pod", "ns") <==> o == Pod()
  {
    TheKinds("Pod");
    AreObjects();
    assert TheWorld().cluster == TheCluster() && Pod().kind == "Pod" && Pod().namespace == "ns";
    hide TheWorld, TheCluster, GvkOf, Pod;
    if o in TheCluster().objects {
      ObjectsByKind(o);
    }
  }

  lemma NoServiceIsMeant(o: Object, name: string)
    requires o in Objects(TheWorld(), "Pod", "ns") && NamedInLabels(name, o.labels)
    ensures !Present(TheWorld(), Node("Service", name, "ns"))
  {
    hide TheWorld, Objects, NamedInLabels, Present, Pod;
    NamesDiffer();
    PodsAreListed(o);
    TheLabels(name);
    OnlyOneService(name);
  }

  lemma LabelsAreSelected()
    ensures SelectorsUsed(TheWorld(), "ns")
  {
    OnlyServicesSelect();
    hide TheWorld, Objects, NamedInLabels, Present, SelectorLabels, RelsOf, Namespaced;
    forall o, name | o in Objects(TheWorld(), "Pod", "ns") && NamedInLabels(name, o.labels)
      ensures !Present(TheWorld(), Node("Service", name, "ns"))
    {
      NoServiceIsMeant(o, name);
    }
  }

  lemma OnlyServicesSelect()
    ensures Namespaced(TheWorld(), "Service")
    ensures forall kind, rel :: rel in RelsOf(TheWorld(), kind) && rel.relType == Label ==> kind == "Service" && rel.targetKinds == ["Pod"]
  {
    TheKinds("Service");
    Relations();
    assert TheWorld().cluster == TheCluster();
    hide TheWorld, TheCluster, RelsOf, GvkOf;
  }

  // ---------------------------------------------------------------- all together

  lemma TheTargets()
    ensures forall kind, rel, target :: kind in TheWorld().relationships && rel in TheWorld().relationships[kind] && target in rel.targetKinds ==>
                                          target == "Pod" || target == "Service"
  {
    Relations();
    hide TheWorld, RelsOf;
  }

  lemma NotAKind(w: World, kind: string)
    requires kind !in w.relationships && forall o :: o in w.cluster.objects ==> OwnerOf(o).kind != kind
    requires forall k, rel :: k in w.relationships && rel in w.relationships[k] ==> kind !in rel.targetKinds
    requires forall item, c :: item in w.compositions && c in ShownChildren(item) ==> c.kind != kind
    ensures kind !in Kinds(w)
  {
  }

  lemma NotDeclared()
    ensures NAMESPACE !in TheWorld().relationships
  {
    Relations();
    KindsDiffer();
    hide TheWorld, RelsOf;
  }

  lemma NoNamespaces()
    ensures NAMESPACE !in Kinds(TheWorld())
  {
    NotDeclared();
    TheTargets();
    KindsDiffer();
    TheComponents();
    assert TheWorld().cluster == TheCluster() && NAMESPACE != "";
    hide TheWorld, TheCluster, RelsOf, OwnerOf, Stored, ShownChildren, Service, Pod, Kinds;
    forall o | o in TheCluster().objects
      ensures OwnerOf(o).kind != NAMESPACE
    {
      OwnersByObject(o);
    }
    NotAKind(TheWorld(), NAMESPACE);
  }

  lemma EnvIsOk()
    ensures EnvOk(Env(TheWorld(), StartOf(TheWorld()), {"ns"}))
  {
    var env := Env(TheWorld(), StartOf(TheWorld()), {"ns"});
    WorldIsOk();
    NoNamespaces();
    KindsDiffer();
    NamesDiffer();
    TheStart();
    hide TheWorld, WorldOk, Edge, Kinds;
    forall a: Node, b: Node, ty, targetNamespace | Edge(env.world, a, b, ty, targetNamespace, false)
      ensures b.kind != NAMESPACE
    {
      EdgeTargets(env.world, a, b, ty, targetNamespace, false);
    }
  }

  lemma TheStart()
    ensures TheWorld().original == Node("Service", "web", "ns") == StartOf(TheWorld())
  {
    KindsDiffer();
    hide TheCluster, TheRelationships, Stored;
  }

  lemma StartIsProper()
    ensures Proper(TheWorld(), StartOf(TheWorld()), "ns")
  {
    TheStart();
    TheObjects();
    KindsDiffer();
    NamesDiffer();
    hide TheWorld, TheCluster, Got, Kinds, Website, Service, Pod, ReplicaSet, Ingress, OtherService, OtherIngress;
    GotHere(Service());
  }

  /** The Service finds the Pod by its selector. */
  lemma ServiceFindsPod()
    ensures LabelDown(TheWorld(), Node("Service", "web", "ns"), Node("Pod", "p", "ns"))
  {
    TheSelector();
    ThePodIsSelected();
    PodsAreListed(Pod());
    assert Pod().name == "p";
    hide TheWorld, SelectorLabels, Objects, Pod, Selects;
  }

  lemma ThePodIsSelected()
    ensures Selects(map["app" := "nginx"], Pod().labels)
  {
    assert "app"[0] != "pod-template-hash"[0];
    assert Pod().labels == map["app" := "nginx", "pod-template-hash" := "abc"];
    var selector, labels := map["app" := "nginx"], Pod().labels;
    assert "app" in selector && "app" in labels && labels["app"] == "nginx";
  }

  lemma TheSelector()
    ensures SelectorLabels(TheWorld(), Node("Service", "web", "ns")) == map["app" := "nginx"]
  {
    TheObjects();
    assert SelectorOf(Service().content) == map["app" := "nginx"];
    assert TheWorld().cluster == TheCluster();
    hide TheWorld, TheCluster, SelectorOf, GvkOf, Website, Service, Pod, ReplicaSet, Ingress, OtherService, OtherIngress;
    GotHere(Service());
  }

  function IngressRelation(): Relationship {
    Relationship(SpecProperty, "name", "name", ["Service"])
  }

  lemma IngressMeetsService()
    ensures Meet(TheWorld(), Ingress(), Service(), Node("Ingress", "web", "ns"), Node("Service", "web", "ns"))
  {
    TheIngress();
    IngressIsListed();
    IsMet(Ingress());
    ServiceIsMet();
    KindsDiffer();
    hide TheWorld, IngressContent, Instances, Objects, Service, Ingress;
  }

  lemma TheIngressRelation()
    ensures IngressRelation() in RelsOf(TheWorld(), "Ingress") && SearchesField(IngressRelation())
    ensures IngressRelation().lhs == "name" && "Service" in IngressRelation().targetKinds
  {
    RelationsHere();
    hide TheWorld, RelsOf;
  }

  /** The Service finds the Ingress that has its name under a field, and surely. */
  lemma ServiceFindsIngress()
    ensures Edge(TheWorld(), Node("Service", "web", "ns"), Node("Ingress", "web", "ns"), SpecProperty, "ns", true)
  {
    IngressMeetsService();
    TheIngressRelation();
    TheIngress();
    OnlyOneName();
    hide TheWorld, IngressContent, IngressRelation, Meet, SearchesField, Occurs, OccursOnly, RelsOf, Service, Ingress, Edge;
    FieldEdges(TheWorld(), IngressRelation(), Ingress(), Service(), Node("Ingress", "web", "ns"), Node("Service", "web", "ns"));
  }

  lemma TheIngress()
    ensures Ingress().content == IngressContent("web", "web") && Ingress().name == "web" && Ingress().kind == "Ingress"
  {
    hide IngressContent;
  }

  /** The Pod finds the Service whose name is the value of an environment variable. */
  lemma PodFindsService()
    ensures Edge(TheWorld(), Node("Pod", "p", "ns"), Node("Service", "web", "ns"), EnvVariable, "ns", true)
  {
    RelationsHere();
    PodsAreListed(Pod());
    IsMet(Pod());
    ServiceIsMet();
    ThePodHasEnv();
    KindsDiffer();
    assert Pod().name == "p" && Pod().kind == "Pod";
    hide TheWorld, Instances, Objects, HasEnvValue, RelsOf, Service, Pod, Edge;
    EnvEdges(TheWorld(), Relationship(SpecProperty, "env", "name", ["Service"]), Pod(), Service(), Node("Pod", "p", "ns"), Node("Service", "web", "ns"));
  }

  lemma ThePodHasEnv()
    ensures HasEnvValue(Pod().content, "web")
  {
    TheContainers();
    var envVar := JObject(map["name" := JString("HOST"), "value" := JString("web")]);
    assert "env"[0] != "name"[0] && "value"[0] != "name"[0];
    assert Items(Field(Container(), "env")) == [envVar] && EnvValue(envVar) == "web";
    assert ContainerHasEnvValue(Container(), "web");
    hide Pod, Containers;
  }

  lemma RelationsHere()
    ensures Relationship(SpecProperty, "name", "name", ["Service"]) in RelsOf(TheWorld(), "Ingress")
    ensures Relationship(SpecProperty, "env", "name", ["Service"]) in RelsOf(TheWorld(), "Pod")
    ensures "name" != "env" && "name" != "namespace" && "Service" in ["Service"]
  {
    KindsDiffer();
    assert TheWorld().relationships == TheRelationships();
    hide TheWorld, TheCluster;
    assert "name"[0] != "env"[0] && |"name"| != |"namespace"|;
  }

  /** What is listed is got by its name. */
  lemma IsMet(o: Object)
    requires o in Objects(TheWorld(), o.kind, "ns") && o.kind in {"Pod", "Service", "Ingress"}
    ensures o in Instances(TheWorld(), o.kind, ANY, "ns") && o in Instances(TheWorld(), o.kind, o.name, "ns")
  {
    WorldIsOk();
    AreMentioned();
    InstancesAreObjects(TheWorld(), o.kind, ANY, "ns");
    assert Named(o.name);
    hide TheWorld, WorldOk, Objects, Instances, Mentioned;
    ListedIffInstance(TheWorld(), o.kind, o.name, "ns", o);
    assert Instances(TheWorld(), o.kind, ANY, "ns") == Objects(TheWorld(), o.kind, "ns");
  }

  lemma AreMentioned()
    ensures Mentioned(TheWorld(), "Pod") && Mentioned(TheWorld(), "Service") && Mentioned(TheWorld(), "Ingress")
  {
    Relations();
    hide TheWorld, RelsOf;
  }

  lemma ServiceIsMet()
    ensures Service().name == "web" && Service().kind == "Service"
    ensures Service() in Instances(TheWorld(), "Service", ANY, "ns") && Service() in Instances(TheWorld(), "Service", "web", "ns")
  {
    TheKinds("Service");
    AreObjects();
    assert TheWorld().cluster == TheCluster() && Service().kind == "Service" && Service().namespace == "ns" && Service().name == "web";
    hide TheWorld, TheCluster, GvkOf, Service;
    assert Service() in Objects(TheWorld(), "Service", "ns");
    IsMet(Service());
  }

  lemma OnlyOneName()
    ensures OccursOnly(IngressContent("web", "web"), "name", "web")
  {
    hide Occurs, IngressContent;
    forall value
      ensures Occurs(IngressContent("web", "web"), "name", value) <==> value == "web"
    {
      TheNames("web", "web", value);
    }
  }

  lemma IngressIsListed()
    ensures Ingress() in Objects(TheWorld(), "Ingress", "ns")
  {
    TheKinds("Ingress");
    AreObjects();
    assert TheWorld().cluster == TheCluster() && Ingress().kind == "Ingress" && Ingress().namespace == "ns";
    hide TheWorld, TheCluster, GvkOf, Ingress;
  }

  /** So the theorems about runs in one namespace speak about this cluster, with links of all kinds: although the labels of the
      Pod name no Service, its fields named `name` differ, and so do those of an Ingress in another namespace. */
  lemma EverythingAssumedHolds()
    ensures var w := TheWorld();
            && EnvOk(Env(w, StartOf(w), {StartOf(w).namespace})) && Unambiguous(w, "ns") && !Unambiguous(w, "other")
            && Symmetric(w, "ns") && ComponentsKnown(w, "ns") && Proper(w, StartOf(w), StartOf(w).namespace)
            && LabelDown(w, StartOf(w), Node("Pod", "p", "ns"))
            && Owner(w, Node("Pod", "p", "ns"), Node("ReplicaSet", "r", "ns"))
            && Edge(w, Node("Pod", "p", "ns"), StartOf(w), EnvVariable, "ns", true)
            && Edge(w, StartOf(w), Node("Ingress", "web", "ns"), SpecProperty, "ns", true)
            && Component(w, Node("Website", "site", "ns"), StartOf(w))
  {
    EnvIsOk();
    WorldIsOk();
    FieldsAreUnambiguous();
    FieldsElsewhereAreNot();
    LabelsAreSelected();
    OwnersAreKnown();
    ComponentsAreOwned();
    StartIsProper();
    ServiceFindsPod();
    ServiceFindsIngress();
    PodFindsService();
    TheOwners();
    TheStart();
    NamesDiffer();
    hide TheWorld, EnvOk, WorldOk, Unambiguous, SelectorsUsed, OwnersKnown, Owner, LabelDown, Proper, Component, ComponentsOwned, Edge;
  }
}
